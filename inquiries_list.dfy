/**
 * The dashboard's enquiry list: two drop-downs narrow the list by status
 * and by type ('all' meaning either), each status option shows how many
 * enquiries have it, and status and type codes are shown by their labels.
 */
module InquiriesList {
  import opened Wrappers
  import opened Seqs
  import opened InquiryIntake
  import opened Dashboard

  type Item = Joined<Inquiry>

  /** The two selections; each is 'all' or a code. */
  datatype Selection = Selection(status: string, kind: string)

  const NoSelection := Selection("all", "all")

  /** `statusMatch && typeMatch`; a null type matches only 'all'. */
  predicate Kept(sel: Selection, item: Item) {
    && (sel.status == "all" || item.row.status == sel.status)
    && (sel.kind == "all" || item.row.inquiryType == Some(sel.kind))
  }

  /** `filteredInquiries` */
  function Filtered(items: seq<Item>, sel: Selection): (r: seq<Item>)
    ensures forall x :: x in r <==> x in items && Kept(sel, x)
    ensures Subsequence(r, items)
  {
    FilterIsSubsequence(items, x => Kept(sel, x));
    Filter(items, x => Kept(sel, x))
  }

  /** With both selections on 'all' the whole list is shown, in order. */
  lemma NoSelectionShowsAll(items: seq<Item>)
    ensures Filtered(items, NoSelection) == items
  {
    FilterAll(items, x => Kept(NoSelection, x));
  }

  /** "Remove all filters" puts both selections back on 'all'. */
  function ClearFilters(sel: Selection): (r: Selection)
    ensures r.status == "all" && r.kind == "all"
  {
    NoSelection
  }

  /** The "no matching enquiries" notice, and with it the button that clears the filters. */
  predicate ShowsNoMatches(items: seq<Item>, sel: Selection) {
    |Filtered(items, sel)| == 0 && |items| > 0
  }

  lemma ClearingEndsNoMatches(items: seq<Item>, sel: Selection)
    requires ShowsNoMatches(items, sel)
    ensures !ShowsNoMatches(items, ClearFilters(sel))
  {
    NoSelectionShowsAll(items);
  }

  const Statuses := ["new", "contacted", "resolved", "closed"]

  /** `inquiries.filter(i => i.status === status).length` */
  function StatusCount(items: seq<Item>, status: string): (n: nat)
    ensures n <= |items|
  {
    if items == [] then 0
    else (if items[0].row.status == status then 1 else 0) + StatusCount(items[1..], status)
  }

  /** The count shown next to each status option; 'all' shows the whole list's length. */
  function OptionCount(items: seq<Item>, value: string): (n: nat)
    ensures value == "all" ==> n == |items|
    ensures value != "all" ==> n == |Filtered(items, Selection(value, "all"))|
  {
    if value == "all" then |items|
    else
      StatusCountIsFilterLength(items, value);
      StatusCount(items, value)
  }

  lemma {:induction false} StatusCountIsFilterLength(items: seq<Item>, status: string)
    requires status != "all"
    ensures StatusCount(items, status) == |Filtered(items, Selection(status, "all"))|
  {
    if items != [] {
      StatusCountIsFilterLength(items[1..], status);
      assert Filtered(items, Selection(status, "all"))
        == (if Kept(Selection(status, "all"), items[0]) then [items[0]] else []) + Filtered(items[1..], Selection(status, "all"));
    }
  }

  function KnownStatusTotal(items: seq<Item>): nat {
    StatusCount(items, "new") + StatusCount(items, "contacted") + StatusCount(items, "resolved") + StatusCount(items, "closed")
  }

  /**
   * The four status counts never add up to more than the 'all' count, and
   * add up to exactly it when every enquiry has one of the four statuses.
   */
  lemma {:induction false} StatusCountsBounded(items: seq<Item>)
    ensures KnownStatusTotal(items) <= |items|
    ensures (forall x :: x in items ==> x.row.status in Statuses) ==> KnownStatusTotal(items) == |items|
  {
    if items != [] {
      StatusCountsBounded(items[1..]);
      assert forall x :: x in items[1..] ==> x in items;
    }
  }

  /** `getStatusText`: the Arabic label of a known status, any other code unchanged. */
  function StatusText(status: string): (text: string)
    ensures status !in Statuses ==> text == status
    ensures status == "new" ==> text == "جديد"
    ensures status == "contacted" ==> text == "تم التواصل"
    ensures status == "resolved" ==> text == "تم الحل"
    ensures status == "closed" ==> text == "مغلق"
  {
    match status
    case "new" => "جديد"
    case "contacted" => "تم التواصل"
    case "resolved" => "تم الحل"
    case "closed" => "مغلق"
    case _ => status
  }

  const InquiryTypes := ["general", "viewing", "price", "availability"]

  /** `getTypeText`: the Arabic label of a known enquiry type, any other code unchanged. */
  function TypeText(kind: string): (text: string)
    ensures kind !in InquiryTypes ==> text == kind
    ensures kind == "general" ==> text == "استفسار عام"
    ensures kind == "viewing" ==> text == "طلب معاينة"
    ensures kind == "price" ==> text == "استفسار عن السعر"
    ensures kind == "availability" ==> text == "استفسار عن التوفر"
  {
    match kind
    case "general" => "استفسار عام"
    case "viewing" => "طلب معاينة"
    case "price" => "استفسار عن السعر"
    case "availability" => "استفسار عن التوفر"
    case _ => kind
  }

  /** Distinct known codes get distinct labels, so no two options read the same. */
  lemma LabelsDistinct(a: string, b: string)
    ensures a in Statuses && b in Statuses && a != b ==> StatusText(a) != StatusText(b)
    ensures a in InquiryTypes && b in InquiryTypes && a != b ==> TypeText(a) != TypeText(b)
  {
  }

  /** A freshly submitted enquiry is counted under "new" and labelled as such. */
  lemma SubmittedCountsAsNew(items: seq<Item>, item: Item)
    requires item.row.status == "new"
    ensures StatusCount(items + [item], "new") == StatusCount(items, "new") + 1
    ensures StatusText(item.row.status) == "جديد"
  {
    StatusCountSnoc(items, item, "new");
  }

  lemma {:induction false} StatusCountSnoc(items: seq<Item>, item: Item, status: string)
    ensures StatusCount(items + [item], status) == StatusCount(items, status) + (if item.row.status == status then 1 else 0)
  {
    if items != [] {
      assert (items + [item])[1..] == items[1..] + [item];
      StatusCountSnoc(items[1..], item, status);
    } else {
      assert items + [item] == [item];
    }
  }
}
