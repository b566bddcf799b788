/**
 * The two record shapes the storefront receives from its service: a user's
 * order lines (`/userorders`) and the per-product GST records (`/gstdetails`).
 */
module Records {

  /**
   * One order line. Identifiers are the service's numeric ids; `createdAt`
   * is the `created_at` timestamp as the number of milliseconds that
   * `new Date(created_at)` yields; money is a decimal amount in rupees.
   */
  datatype Order = Order(
    orderId: nat,
    productId: nat,
    title: string,
    address: string,
    imagePath: string,
    price: real,
    quantity: nat,
    status: string,
    createdAt: int)

  /**
   * One product's GST record. `gstAmount` is the service's own `gst_amount`
   * field, which the invoice reads as given; `productCost` and
   * `gstPercentage` are what the reference table and its chart compute with.
   */
  datatype GstRecord = GstRecord(
    id: nat,
    title: string,
    brand: string,
    category: string,
    productCost: real,
    gstPercentage: nat,
    gstAmount: real)
}
