/** The static question/answer corpus consulted before any model call,
    grouped by category as in the source data file. */
module FaqData {

  datatype QA = QA(question: string, answer: string)

  datatype FaqCategory = FaqCategory(category: string, qa: seq<QA>)

  /** All entries, category by category, in file order. */
  function Flatten(categories: seq<FaqCategory>): seq<QA> {
    if categories == [] then [] else categories[0].qa + Flatten(categories[1..])
  }

  const TrackOrderQuestion: string := "How can I track my order?"
  const TrackOrderAnswer: string := "You can track your order anytime at https://printo.in/track-order using your order ID and email."

  const OrderManagement: FaqCategory :=
    FaqCategory("Order Management", [
        QA(TrackOrderQuestion, TrackOrderAnswer),
        QA("Can I cancel or modify my order?",
           "If your order hasn't moved into production, we can cancel or modify it. Contact us within 1 hour of placing the order."),
        QA("I received the wrong or damaged item. What should I do?",
           "We're sorry! Please email care@printo.in with your order ID and clear photos of the item. We'll resolve it ASAP."),
        QA("Where is my order?",
           "You can track your order by clicking here: https://printo.in/track-order and entering your order number and email. If you placed the order while logged in, just go to My Orders in your account.")
      ])

  const ShippingDelivery: FaqCategory :=
    FaqCategory("Shipping & Delivery", [
        QA("How long does shipping take?",
           "Standard shipping takes 3–7 business days depending on your location. Express shipping is available in select areas."),
        QA("Do you deliver to my city?",
           "We deliver across most major Indian cities. Enter your PIN code during checkout to confirm availability."),
        QA("My package is marked delivered, but I haven't received it.",
           "Please check your surroundings and confirm with neighbors. If it's still missing, contact us immediately."),
        QA("Do you ship internationally?",
           "Currently, we do not provide international shipping services.")
      ])

  const ReturnsRefunds: FaqCategory :=
    FaqCategory("Returns & Refunds", [
        QA("What is your return policy?",
           "We accept returns only for defective, misprinted, or incorrect products. Contact support within 24 hours of delivery."),
        QA("How long do refunds take?",
           "Refunds are typically processed within 7 working days to your original payment method."),
        QA("Can I return a customized product?",
           "Customized items are non-returnable unless there's a quality or production error."),
        QA("How do I return a product?",
           "If you received a damaged or defective product, promptly contact our support team within 24 hours of the delivery date. Provide a detailed description along with photos or videos of the damage to facilitate a quick resolution. You can email us at brandstore@printo.in or use the 'Connect with Us' form on our website."),
        QA("What is the cancellation fee?",
           "As long as the order has not been moved into production, cancellation is free."),
        QA("How do I get my refund if I cancel an order?",
           "A refund for the amount paid will be issued to the payment method used, within 7 working days. For any refund-related queries, please contact our support team at care@printo.in.")
      ])

  const PaymentInvoicing: FaqCategory :=
    FaqCategory("Payment & Invoicing", [
        QA("What payment methods do you accept?",
           "We accept credit/debit cards (MasterCard, Visa, American Express, Maestro), net banking (20+ banks), wallets and UPI, SIMPL (Pay Later), and EMI options (subject to bank partnerships)."),
        QA("I was charged but didn't get an order confirmation.",
           "Please email us the payment receipt or transaction details. We'll verify and either process your order or issue a refund."),
        QA("Do you issue GST invoices?",
           "Yes. Enter your GSTIN at checkout to receive a GST-compliant invoice."),
        QA("Payment made but order not placed?",
           "If you find that a payment has been debited twice or an amount has been deducted without the order being placed, please don't worry. Simply reach out to our customer service team and provide us with proof of payment, including transaction details, or your registered email ID. We will investigate the payment and either issue a refund or process the order by capturing the payment.")
      ])

  const DesignCustomization: FaqCategory :=
    FaqCategory("Design & Customization", [
        QA("How do I upload my design?",
           "Upload your design during the product customization step. You can also email files to care@printo.in with your order ID."),
        QA("What file formats are supported?",
           "We support PDF, AI, PSD, PNG, TIFF, EPS, SVG, CDR, and JPG."),
        QA("Can you help with design or file issues?",
           "Yes! Our design team can assist with minor edits. For full design services, contact support for options."),
        QA("Can I place multiple orders for a single product?",
           "Yes, it is possible to place multiple orders for a single product.")
      ])

  const Categories: seq<FaqCategory> := [OrderManagement, ShippingDelivery, ReturnsRefunds, PaymentInvoicing, DesignCustomization]

  /** The corpus in the order the matcher scans it. */
  const Corpus: seq<QA> := Flatten(Categories)
}
