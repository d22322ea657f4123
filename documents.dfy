/**
 From the rows of the order-history table to the bills handed to the bill store.
 Only orders whose status guarantees an invoice are kept; each kept row gets the
 vendor and currency, a file name built from its date, amount and order reference,
 and a fixed block of file metadata.

 Amounts are counted in cents, and `FormatAmount` stands for printing a number with
 two decimals.
 */
module Documents {
  import opened Text
  import opened Dates

  const Vendor := "Les ptits cageots"
  const Currency := "EUR"

  /** The two order statuses for which the shop issues an invoice. */
  const PlacedStatus := "Commande passée"
  const ProcessedStatus := "Commande traitée"

  /** The fixed middle part of every file name. */
  const FilenameInfix := "_les_ptits_cageots_facture_"

  /** One row of the order-history table as the scraper hands it over: the date
      already through normalizeDate, the amount in cents. */
  datatype Row = Row(
    date: CalendarDate,
    amount: nat,
    vendorRef: string,
    orderStatus: string,
    fileurl: string)

  /** `label` of the source is `classLabel` here (`label` is a Dafny keyword). */
  datatype Classification = Classification(classLabel: string, purpose: string, sourceCategory: string)

  datatype Metadata = Metadata(
    carbonCopy: bool,
    classification: Classification,
    datetime: string,
    datetimeLabel: string,
    contentAuthor: string,
    issueDate: string)

  datatype FileAttributes = FileAttributes(metadata: Metadata)

  /** A row with the fields the connector adds to it. */
  datatype Bill = Bill(
    date: CalendarDate,
    amount: nat,
    vendorRef: string,
    orderStatus: string,
    fileurl: string,
    vendor: string,
    currency: string,
    filename: string,
    fileAttributes: FileAttributes)

  // ---------------------------------------------------------------------------
  // Amounts

  /** The shape of a number printed with two decimals: a canonical whole part, a
      dot and exactly two digits. */
  predicate IsFixed2(s: string) {
    && |s| >= 4
    && s[|s| - 3] == '.'
    && AllDigits(s[..|s| - 3])
    && AllDigits(s[|s| - 2..])
    && (|s| > 4 ==> s[0] != '0')
  }

  /** The number of cents a two-decimal numeral denotes. */
  function CentsOf(s: string): nat
    requires IsFixed2(s)
  {
    ParseDigits(s[..|s| - 3]) * 100 + ParseDigits(s[|s| - 2..])
  }

  /** `amount.toFixed(2)` for an amount of `cents` hundredths. */
  function FormatAmount(cents: nat): (s: string)
    ensures IsFixed2(s)
    ensures CentsOf(s) == cents
    ensures forall i :: 0 <= i < |s| ==> IsDigit(s[i]) || s[i] == '.'
  {
    var whole := NatToString(cents / 100);
    var frac := PadNat(cents % 100, 2);
    var s := whole + "." + frac;
    assert s[..|s| - 3] == whole && s[|s| - 2..] == frac;
    s
  }

  /** Every two-decimal numeral is the printing of its own value. */
  lemma {:induction false} FormatCentsOf(s: string)
    requires IsFixed2(s)
    ensures FormatAmount(CentsOf(s)) == s
  {
    var whole, frac := s[..|s| - 3], s[|s| - 2..];
    var w, f := ParseDigits(whole), ParseDigits(frac);
    Fixed2Parts(s);
    FormatAmountParts(w, f);
    NatToStringParsed(whole);
    PadParsed(frac);
  }

  /** A two-decimal numeral is its whole part, a dot and its cents. */
  lemma Fixed2Parts(s: string)
    requires IsFixed2(s)
    ensures s == s[..|s| - 3] + "." + s[|s| - 2..]
    ensures CentsOf(s) == ParseDigits(s[..|s| - 3]) * 100 + ParseDigits(s[|s| - 2..])
    ensures ParseDigits(s[|s| - 2..]) < 100
  {
    assert Pow10(2) == 100;
  }

  /** The printing of `w` units and `f` cents. */
  lemma FormatAmountParts(w: nat, f: nat)
    requires f < 100
    ensures FormatAmount(w * 100 + f) == NatToString(w) + "." + PadNat(f, 2)
  {
    DivMod100(w, f);
  }

  lemma DivMod100(w: nat, f: nat)
    requires f < 100
    ensures (w * 100 + f) / 100 == w && (w * 100 + f) % 100 == f
  {
  }

  // ---------------------------------------------------------------------------
  // File names

  /** formatFilename: `<day>_les_ptits_cageots_facture_<amount>EUR_<reference>.pdf`. */
  function FormatFilename(row: Row): (name: string)
    ensures |name| > 10 && name[..10] == FormatDate(row.date)
    ensures EndsWith(name, "EUR_" + row.vendorRef + ".pdf")
  {
    var day := FormatDate(row.date);
    var rest := FilenameInfix + FormatAmount(row.amount);
    var suffix := "EUR_" + row.vendorRef + ".pdf";
    assert (day + rest) + suffix == day + rest + "EUR_" + row.vendorRef + ".pdf";
    day + rest + "EUR_" + row.vendorRef + ".pdf"
  }

  /** The file name ends with an underscore, the order reference and ".pdf". */
  lemma FilenameEndsWithReference(row: Row)
    ensures EndsWith(FormatFilename(row), "_" + row.vendorRef + ".pdf")
  {
  }

  predicate EndsWith(s: string, suffix: string) {
    |suffix| <= |s| && s[|s| - |suffix|..] == suffix
  }

  /** Splitting `a + "EUR_" + t` where `a` is a printed amount recovers `a` and `t`:
      the first letter E after the amount ends it. */
  lemma {:induction false} SplitAtCurrency(a1: string, t1: string, a2: string, t2: string)
    requires forall i :: 0 <= i < |a1| ==> IsDigit(a1[i]) || a1[i] == '.'
    requires forall i :: 0 <= i < |a2| ==> IsDigit(a2[i]) || a2[i] == '.'
    requires a1 + "EUR_" + t1 == a2 + "EUR_" + t2
    ensures a1 == a2 && t1 == t2
  {
    var s1, s2 := a1 + "EUR_" + t1, a2 + "EUR_" + t2;
    assert s1[|a1|] == 'E' && s2[|a2|] == 'E';
    assert forall i :: 0 <= i < |a1| ==> s1[i] == a1[i];
    assert forall i :: 0 <= i < |a2| ==> s2[i] == a2[i];
    assert |a1| == |a2|;
    assert a1 == s1[..|a1|] && a2 == s2[..|a2|];
    assert t1 == s1[|a1| + 4..] && t2 == s2[|a2| + 4..];
  }

  /** The file name split into its day, its fixed infix and the rest. */
  lemma FilenameParts(row: Row)
    ensures FormatFilename(row) ==
      FormatDate(row.date) + (FilenameInfix + (FormatAmount(row.amount) + "EUR_" + (row.vendorRef + ".pdf")))
  {
  }

  /** Two rows get the same file name exactly when they fall on the same day and
      have the same amount and the same order reference. */
  lemma {:induction false} FilenameDeterminesKey(r1: Row, r2: Row)
    ensures FormatFilename(r1) == FormatFilename(r2) <==>
      && FormatDate(r1.date) == FormatDate(r2.date)
      && r1.amount == r2.amount
      && r1.vendorRef == r2.vendorRef
  {
    var d1, d2 := FormatDate(r1.date), FormatDate(r2.date);
    var a1, a2 := FormatAmount(r1.amount), FormatAmount(r2.amount);
    var t1, t2 := r1.vendorRef + ".pdf", r2.vendorRef + ".pdf";
    FilenameParts(r1);
    FilenameParts(r2);
    if FormatFilename(r1) == FormatFilename(r2) {
      CancelLeft(d1, FilenameInfix + (a1 + "EUR_" + t1), d2, FilenameInfix + (a2 + "EUR_" + t2));
      CancelLeft(FilenameInfix, a1 + "EUR_" + t1, FilenameInfix, a2 + "EUR_" + t2);
      SplitAtCurrency(a1, t1, a2, t2);
      CancelRight(r1.vendorRef, ".pdf", r2.vendorRef, ".pdf");
    }
  }

  /** Orders of the same day and amount with different references never share a
      file name. */
  lemma DistinctReferencesDistinctNames(r1: Row, r2: Row)
    requires r1.vendorRef != r2.vendorRef
    ensures FormatFilename(r1) != FormatFilename(r2)
  {
    FilenameDeterminesKey(r1, r2);
  }

  // ---------------------------------------------------------------------------
  // Filtering and enrichment

  predicate HasInvoice(status: string) {
    status == PlacedStatus || status == ProcessedStatus
  }

  /** The fields the scraper produced, as kept in a bill. */
  function Scraped(b: Bill): Row {
    Row(b.date, b.amount, b.vendorRef, b.orderStatus, b.fileurl)
  }

  /** What every bill of the connector carries besides its scraped fields. */
  predicate IsEnriched(b: Bill) {
    var m := b.fileAttributes.metadata;
    && b.vendor == Vendor
    && b.currency == Currency
    && b.filename == FormatFilename(Scraped(b))
    && m.carbonCopy
    && m.classification == Classification("food_invoice", "invoice", "shopping")
    && m.contentAuthor == b.vendor
    && m.datetimeLabel == "issueDate"
    && m.datetime == FormatDate(b.date)
    && m.issueDate == m.datetime
  }

  /** The object built for one kept row: the row's own fields plus the added ones. */
  function Enrich(row: Row): (b: Bill)
    ensures Scraped(b) == row
    ensures IsEnriched(b)
  {
    var day := FormatDate(row.date);
    Bill(row.date, row.amount, row.vendorRef, row.orderStatus, row.fileurl,
         Vendor, Currency, FormatFilename(row),
         FileAttributes(Metadata(
           true,
           Classification("food_invoice", "invoice", "shopping"),
           day, "issueDate", Vendor, day)))
  }

  /** The filter step: the rows whose status promises an invoice, in table order. */
  function InvoicedRows(rows: seq<Row>): (kept: seq<Row>)
    ensures |kept| <= |rows|
    ensures forall r :: r in kept ==> r in rows && HasInvoice(r.orderStatus)
    ensures forall r :: r in rows && HasInvoice(r.orderStatus) ==> r in kept
  {
    if rows == [] then []
    else (if HasInvoice(rows[0].orderStatus) then [rows[0]] else []) + InvoicedRows(rows[1..])
  }

  /** parseDocuments after scraping: filter the rows, then enrich each kept one. */
  function ParseDocuments(rows: seq<Row>): (bills: seq<Bill>)
    ensures |bills| <= |rows|
    ensures forall i :: 0 <= i < |bills| ==>
      HasInvoice(bills[i].orderStatus) && Scraped(bills[i]) in rows && IsEnriched(bills[i])
  {
    var kept := InvoicedRows(rows);
    seq(|kept|, i requires 0 <= i < |kept| => Enrich(kept[i]))
  }

  /** Each position of `s` one further on. */
  function Shift(s: seq<nat>): (r: seq<nat>)
    ensures |r| == |s| && forall k :: 0 <= k < |s| ==> r[k] == s[k] + 1
  {
    seq(|s|, k requires 0 <= k < |s| => s[k] + 1)
  }

  /** The positions in `rows` of the rows with an invoice status, in table order. */
  function InvoicedPositions(rows: seq<Row>): seq<nat> {
    if rows == [] then []
    else (if HasInvoice(rows[0].orderStatus) then [0] else []) + Shift(InvoicedPositions(rows[1..]))
  }

  /** The k-th kept row is the row at the k-th invoiced position. */
  lemma {:induction false} InvoicedRowsAtPositions(rows: seq<Row>)
    ensures |InvoicedPositions(rows)| == |InvoicedRows(rows)|
    ensures forall k :: 0 <= k < |InvoicedPositions(rows)| ==>
      InvoicedPositions(rows)[k] < |rows| && InvoicedRows(rows)[k] == rows[InvoicedPositions(rows)[k]]
  {
    if rows != [] {
      InvoicedRowsAtPositions(rows[1..]);
    }
  }

  /** The invoiced positions strictly increase: the filter keeps table order. */
  lemma {:induction false} InvoicedPositionsIncrease(rows: seq<Row>)
    ensures forall j, k :: 0 <= j < k < |InvoicedPositions(rows)| ==>
      InvoicedPositions(rows)[j] < InvoicedPositions(rows)[k]
  {
    if rows != [] {
      InvoicedPositionsIncrease(rows[1..]);
    }
  }

  /** A position is listed exactly when its row has an invoice status. */
  lemma {:induction false} InvoicedPositionsExact(rows: seq<Row>)
    ensures forall i :: 0 <= i < |rows| ==>
      (HasInvoice(rows[i].orderStatus) <==> i in InvoicedPositions(rows))
  {
    if rows != [] {
      var tail := InvoicedPositions(rows[1..]);
      InvoicedPositionsExact(rows[1..]);
      forall i | 1 <= i < |rows|
        ensures i in Shift(tail) <==> i - 1 in tail
      {
        if i - 1 in tail {
          var k :| 0 <= k < |tail| && tail[k] == i - 1;
          assert Shift(tail)[k] == i;
        }
      }
      assert 0 !in Shift(tail);
      assert forall i :: 1 <= i < |rows| ==> rows[i] == rows[1..][i - 1];
    }
  }

  /** parseDocuments yields one bill per invoiced row, in table order, and nothing
      else: the k-th bill is the enrichment of the row at the k-th position of a
      strictly increasing list that holds exactly the invoiced positions. */
  lemma ParseDocumentsExact(rows: seq<Row>)
    ensures var ix := InvoicedPositions(rows);
      && |ix| == |ParseDocuments(rows)|
      && (forall k :: 0 <= k < |ix| ==> ix[k] < |rows| && ParseDocuments(rows)[k] == Enrich(rows[ix[k]]))
      && (forall j, k :: 0 <= j < k < |ix| ==> ix[j] < ix[k])
      && (forall i :: 0 <= i < |rows| ==> (HasInvoice(rows[i].orderStatus) <==> i in ix))
  {
    InvoicedRowsAtPositions(rows);
    InvoicedPositionsIncrease(rows);
    InvoicedPositionsExact(rows);
  }

  /** Every row with an invoice status yields its bill. */
  lemma InvoicedRowBilled(rows: seq<Row>, r: Row)
    requires r in rows && HasInvoice(r.orderStatus)
    ensures Enrich(r) in ParseDocuments(rows)
  {
    var kept := InvoicedRows(rows);
    var k :| 0 <= k < |kept| && kept[k] == r;
    assert ParseDocuments(rows)[k] == Enrich(r);
  }

  /** Nothing is dropped exactly when every row has an invoice status. */
  lemma {:induction false} NothingDroppedIffAllInvoiced(rows: seq<Row>)
    ensures |ParseDocuments(rows)| == |rows| <==>
      forall i :: 0 <= i < |rows| ==> HasInvoice(rows[i].orderStatus)
  {
    InvoicedRowsFull(rows);
  }

  lemma {:induction false} InvoicedRowsFull(rows: seq<Row>)
    ensures |InvoicedRows(rows)| == |rows| <==>
      forall i :: 0 <= i < |rows| ==> HasInvoice(rows[i].orderStatus)
  {
    if rows != [] {
      InvoicedRowsFull(rows[1..]);
      assert forall i :: 1 <= i < |rows| ==> rows[i] == rows[1..][i - 1];
    }
  }

  /** A row with any other status, such as the "Commande acceptée" that the
      comment beside the scraper mentions or a failed payment, yields no bill. */
  lemma OtherStatusDropped(rows: seq<Row>, r: Row)
    requires r.orderStatus != PlacedStatus && r.orderStatus != ProcessedStatus
    ensures forall b :: b in ParseDocuments(rows) ==> Scraped(b) != r
  {
  }

  // ---------------------------------------------------------------------------
  // The order page sample

  lemma SampleAmount()
    ensures FormatAmount(8615) == "86.15"
  {
    SampleWhole();
    SampleCents();
    FormatAmountParts(86, 15);
  }

  lemma SampleWhole()
    ensures NatToString(86) == "86"
  {
    assert DigitChar(8) == '8' && DigitChar(6) == '6';
    assert NatToString(8) == "8";
    assert NatToString(86) == NatToString(8) + [DigitChar(6)];
  }

  lemma SampleCents()
    ensures PadNat(15, 2) == "15"
  {
    assert PadNat(1, 1) == PadNat(0, 0) + [DigitChar(1)];
    assert PadNat(15, 2) == PadNat(1, 1) + [DigitChar(5)];
  }

  /** The sample order of 21 October 2021 for 86.15 EUR with reference DDVMDIJTQ
      is filed as 2021-10-21_les_ptits_cageots_facture_86.15EUR_DDVMDIJTQ.pdf. */
  lemma SampleFilename(row: Row)
    requires row.date == DateTime(2021, 9, 21, 23, 14, 57)
    requires row.amount == 8615 && row.vendorRef == "DDVMDIJTQ"
    ensures FormatFilename(row) ==
      "2021-10-21" + "_les_ptits_cageots_facture_" + "86.15" + "EUR_" + "DDVMDIJTQ" + ".pdf"
  {
    SampleDayPrinted(row.date);
    SampleAmount();
    FilenameParts(row);
    Regroup(FormatDate(row.date), FilenameInfix, FormatAmount(row.amount), "EUR_", row.vendorRef, ".pdf");
  }

  /** Concatenation regrouped from the right to the left. */
  lemma Regroup(a: string, b: string, c: string, d: string, e: string, f: string)
    ensures a + (b + (c + d + (e + f))) == a + b + c + d + e + f
  {
  }

  /** The table with a processed order and a failed payment for the same data gives
      exactly one bill, for the processed order. */
  lemma SampleListing(url: string)
    ensures IsStamp("20211021231457") &&
      var a := Row(NormalizeDate("20211021231457"), 8615, "DDVMDIJTQ", "Commande traitée", url);
      var b := a.(orderStatus := "Erreur de paiement");
      && ParseDocuments([a, b]) == [Enrich(a)]
      && Enrich(a).filename ==
        "2021-10-21" + "_les_ptits_cageots_facture_" + "86.15" + "EUR_" + "DDVMDIJTQ" + ".pdf"
  {
    SampleStamp();
    var a := Row(NormalizeDate("20211021231457"), 8615, "DDVMDIJTQ", "Commande traitée", url);
    var b := a.(orderStatus := "Erreur de paiement");
    assert HasInvoice(a.orderStatus) && !HasInvoice(b.orderStatus);
    KeepFirstOfTwo(a, b);
    SampleFilename(a);
  }

  /** Of an invoiced row followed by one without invoice, only the first is billed. */
  lemma KeepFirstOfTwo(a: Row, b: Row)
    requires HasInvoice(a.orderStatus) && !HasInvoice(b.orderStatus)
    ensures ParseDocuments([a, b]) == [Enrich(a)]
  {
    assert [a, b][1..] == [b];
    assert [b][1..] == [];
    assert InvoicedRows([a, b]) == [a];
  }
}
