/**
 * The data of the tax invoice that the order list offers for a delivered
 * order: the lookup of the product's GST record, the equal CGST/SGST split,
 * the item table with its header and footer, the page-break rule and the
 * file name. The drawing itself (fonts, coordinates, rules) is not modelled.
 */
module Invoice {
  import opened Common
  import opened Text
  import opened Records

  /** The index of the first record for productId, if there is one (`Array.prototype.findIndex`). */
  function FirstWithId(records: seq<GstRecord>, productId: nat): (r: Option<nat>)
    ensures r.None? <==> forall i :: 0 <= i < |records| ==> records[i].id != productId
    ensures r.Some? ==> r.value < |records| && records[r.value].id == productId
    ensures r.Some? ==> forall j :: 0 <= j < r.value ==> records[j].id != productId
  {
    if records == [] then None
    else if records[0].id == productId then Some(0)
    else match FirstWithId(records[1..], productId)
      case None => None
      case Some(i) => Some(i + 1)
  }

  /** `gstDetails.find(gst => gst.id === order.product_id)`. */
  function FindGst(records: seq<GstRecord>, productId: nat): (r: Option<GstRecord>)
    ensures r.None? <==> forall i :: 0 <= i < |records| ==> records[i].id != productId
    ensures r.Some? ==> r.value in records && r.value.id == productId
    ensures r.Some? ==> r.value == records[FirstWithId(records, productId).value]
  {
    match FirstWithId(records, productId)
    case None => None
    case Some(i) => Some(records[i])
  }

  /** What a table cell shows. */
  datatype Cell =
    | Plain(text: string)                   // a string, shown as it is
    | Number(value: real)                   // a number's `toString()`
    | Fixed2(amount: real)                  // a number's `toFixed(2)`
    | Labelled(caption: string, amount: real) // a caption followed by a number's `toFixed(2)`

  /** The derived content of one invoice. */
  datatype Document = Document(
    title: string,
    companyBlock: seq<string>,
    shippingAddress: string,
    orderIdLine: string,
    head: seq<string>,
    body: seq<seq<Cell>>,
    foot: seq<seq<Cell>>,
    cgst: real,
    sgst: real,
    totalPrice: real,
    fileName: string)

  const Title: string := "TaxInvoice"

  /** The fixed seller block printed under the title. */
  const CompanyBlock: seq<string> := [
    "Company Name: Brightcomgroup.",
    "Address: 1234 Street, City, State",
    "Phone: (123) 456-7890",
    "Email: contact@abccorp.com",
    "GST Number: 29ABCDE1234F1Z5"
  ]

  const Head: seq<string> := ["Order ID", "Title", "Quantity", "Price", "CGST", "SGST", "Total Price"]

  const TotalLabel: string := "Total Amount = "

  /** Vertical position assumed when the table reports no final position. */
  const DefaultCursorY: real := 60.0

  /** Space kept free at the bottom of a page. */
  const BottomMargin: real := 20.0

  /** The downloaded file's name: `invoice_<order id>.pdf`. */
  function FileName(orderId: nat): (r: string)
    ensures |r| >= 13 && r[..8] == "invoice_" && r[|r| - 4..] == ".pdf"
    ensures r[8..|r| - 4] == NatToString(orderId)
  {
    NatToStringDigits(orderId);
    "invoice_" + NatToString(orderId) + ".pdf"
  }

  /** Two orders never download under the same file name. */
  lemma FileNameInjective(a: nat, b: nat)
    requires FileName(a) == FileName(b)
    ensures a == b
  {
    var fa, fb := FileName(a), FileName(b);
    assert fa[8..|fa| - 4] == NatToString(a);
    assert fb[8..|fb| - 4] == NatToString(b);
    NatToStringInjective(a, b);
  }

  /** The single data row of the item table. */
  function ItemRow(order: Order, cgst: real, sgst: real, totalPrice: real): (row: seq<Cell>)
    ensures |row| == |Head|
    ensures row[0] == Plain(NatToString(order.orderId)) && row[1] == Plain(order.title)
    ensures row[2] == Plain(NatToString(order.quantity)) && row[3] == Number(order.price)
    ensures row[4] == Fixed2(cgst) && row[5] == Fixed2(sgst) && row[6] == Fixed2(totalPrice)
  {
    [ Plain(NatToString(order.orderId)),
      Plain(order.title),
      Plain(NatToString(order.quantity)),
      Number(order.price),
      Fixed2(cgst),
      Fixed2(sgst),
      Fixed2(totalPrice) ]
  }

  /** The footer row: empty cells, then the total under "Total Price". */
  function FooterRow(totalPrice: real): (row: seq<Cell>)
    ensures |row| == |Head|
    ensures forall i :: 0 <= i < |row| - 1 ==> row[i] == Plain("")
    ensures row[|row| - 1] == Labelled(TotalLabel, totalPrice)
  {
    [Plain(""), Plain(""), Plain(""), Plain(""), Plain(""), Plain(""), Labelled(TotalLabel, totalPrice)]
  }

  /** The invoice for an order, given the GST record found for its product. */
  function Build(order: Order, gst: GstRecord): (doc: Document)
    ensures doc.title == Title && doc.companyBlock == CompanyBlock
    ensures doc.shippingAddress == "Shipping Address:\n" + order.address
    ensures doc.orderIdLine == "Order ID: " + NatToString(order.orderId)
    ensures doc.cgst == doc.sgst && doc.cgst + doc.sgst == gst.gstAmount
    ensures doc.totalPrice == order.price
    ensures doc.head == Head && doc.body == [ItemRow(order, doc.cgst, doc.sgst, order.price)]
    ensures doc.foot == [FooterRow(order.price)]
    ensures doc.fileName == FileName(order.orderId)
  {
    var cgst := gst.gstAmount / 2.0;
    var sgst := gst.gstAmount / 2.0;
    var totalPrice := order.price;
    Document(
      Title,
      CompanyBlock,
      "Shipping Address:\n" + order.address,
      "Order ID: " + NatToString(order.orderId),
      Head,
      [ItemRow(order, cgst, sgst, totalPrice)],
      [FooterRow(totalPrice)],
      cgst, sgst, totalPrice,
      FileName(order.orderId))
  }

  /**
   * `handleDownloadInvoice(order)`: nothing when no GST record matches the
   * order's product, otherwise the invoice built from the first match.
   */
  function Generate(order: Order, gstDetails: seq<GstRecord>): (r: Option<Document>)
    ensures r.None? <==> forall i :: 0 <= i < |gstDetails| ==> gstDetails[i].id != order.productId
    ensures r.Some? ==> exists i :: 0 <= i < |gstDetails| && gstDetails[i].id == order.productId
                          && (forall j :: 0 <= j < i ==> gstDetails[j].id != order.productId)
                          && r.value == Build(order, gstDetails[i])
  {
    match FirstWithId(gstDetails, order.productId)
    case None => None
    case Some(i) => Some(Build(order, gstDetails[i]))
  }

  /** `doc.lastAutoTable.finalY || 60`: an absent or zero final position reads as 60. */
  function CursorY(finalY: Option<real>): (y: real)
    ensures y != 0.0
    ensures finalY.None? ==> y == DefaultCursorY
    ensures finalY.Some? ==> y == if finalY.value == 0.0 then DefaultCursorY else finalY.value
  {
    if finalY.Some? && finalY.value != 0.0 then finalY.value else DefaultCursorY
  }

  /**
   * Whether the table's page hook appends a page: the position read from
   * `doc.lastAutoTable.finalY` (60 when absent or zero) is past pageHeight - 20.
   */
  function AddsPage(finalY: Option<real>, pageHeight: real): (b: bool)
    ensures b <==> if finalY.Some? && finalY.value != 0.0 then finalY.value + 20.0 > pageHeight
                   else pageHeight < 80.0
  {
    CursorY(finalY) > pageHeight - BottomMargin
  }

  /** A taller page never needs a page break that a shorter one does not. */
  lemma TallerPageBreaksLess(finalY: Option<real>, shorter: real, taller: real)
    requires shorter <= taller && AddsPage(finalY, taller)
    ensures AddsPage(finalY, shorter)
  {
  }

  /** With no earlier table, or one ending at 0, an A4 page (297 units high) never gets a page break. */
  lemma NoEarlierTableNoBreakOnA4(finalY: Option<real>)
    requires finalY.None? || finalY.value == 0.0
    ensures !AddsPage(finalY, 297.0)
  {
  }

  /** The tax breakdown adds up to the record's GST amount, split evenly. */
  lemma TaxSplitsEvenly(order: Order, gstDetails: seq<GstRecord>)
    requires Generate(order, gstDetails).Some?
    ensures var doc := Generate(order, gstDetails).value;
            doc.cgst == doc.sgst == FindGst(gstDetails, order.productId).value.gstAmount / 2.0
  {
  }

  /** The row total and the footer depend on the order's price only, not on the tax record. */
  lemma TotalIgnoresTax(order: Order, g1: seq<GstRecord>, g2: seq<GstRecord>)
    requires Generate(order, g1).Some? && Generate(order, g2).Some?
    ensures Generate(order, g1).value.totalPrice == Generate(order, g2).value.totalPrice == order.price
    ensures Generate(order, g1).value.foot == Generate(order, g2).value.foot
  {
  }

  /** A GST record of 180 on a 1000 order gives CGST = SGST = 90 and a total of 1000. */
  lemma ExampleInvoice()
    ensures var order := Order(1, 1, "Shirt", "12 Road", "shirt.png", 1000.0, 1, "delivered", 0);
            var gst := GstRecord(1, "Shirt", "Acme", "Men's Fashion", 1000.0, 18, 180.0);
            var doc := Generate(order, [gst]);
            doc.Some? && doc.value.cgst == 90.0 && doc.value.sgst == 90.0 && doc.value.totalPrice == 1000.0
            && doc.value.foot == [FooterRow(1000.0)] && doc.value.fileName == "invoice_1.pdf"
  {
    var order := Order(1, 1, "Shirt", "12 Road", "shirt.png", 1000.0, 1, "delivered", 0);
    var gst := GstRecord(1, "Shirt", "Acme", "Men's Fashion", 1000.0, 18, 180.0);
    assert FirstWithId([gst], 1) == Some(0);
    assert NatToString(1) == "1";
  }

  /** No invoice is produced for a product without a GST record. */
  lemma MissingRecordGivesNothing()
    ensures var order := Order(2, 9, "Lamp", "5 Lane", "lamp.png", 500.0, 1, "delivered", 0);
            Generate(order, [GstRecord(1, "Shirt", "Acme", "Men's Fashion", 1000.0, 18, 180.0)]).None?
  {
  }
}
