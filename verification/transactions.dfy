/** The transactions screen's pure parts: the day number read from a day group's id, the
    expand/collapse flags and the first expense and first income shown in an expanded row. */
module Transactions {
  import opened Wrappers
  import opened Numbers

  // ---------------------------------------------------------------- the day number

  /** The pattern `-(\d{2})(?:$|-\d)` matches at position `i`: a dash, two digits, then either
      the end of the id or a dash followed by a digit. */
  predicate MatchAt(id: string, i: nat) {
    && i + 3 <= |id|
    && id[i] == '-' && IsDigit(id[i + 1]) && IsDigit(id[i + 2])
    && (i + 3 == |id| || (i + 5 <= |id| && id[i + 3] == '-' && IsDigit(id[i + 4])))
  }

  /** `i` is where the leftmost match starts. */
  predicate LeftmostMatch(id: string, i: nat) {
    MatchAt(id, i) && forall j: nat :: j < i ==> !MatchAt(id, j)
  }

  predicate NoMatch(id: string) {
    forall j: nat :: j < |id| ==> !MatchAt(id, j)
  }

  /** `parseInt` of a two-digit string. */
  function TwoDigits(a: char, b: char): (n: nat)
    requires IsDigit(a) && IsDigit(b)
    ensures n <= 99
  {
    DigitValue(a) * 10 + DigitValue(b)
  }

  /** The leftmost match at or after `from`. */
  function FirstMatch(id: string, from: nat): (r: Option<nat>)
    ensures r != None ==> from <= r.value && MatchAt(id, r.value)
    ensures r != None ==> forall j: nat :: from <= j < r.value ==> !MatchAt(id, j)
    ensures r == None ==> forall j: nat :: from <= j ==> !MatchAt(id, j)
    decreases |id| - from
  {
    if |id| < from + 3 then None
    else if MatchAt(id, from) then Some(from)
    else FirstMatch(id, from + 1)
  }

  lemma LeftmostUnique(id: string, i: nat, k: nat)
    requires LeftmostMatch(id, i) && LeftmostMatch(id, k)
    ensures i == k
  {
  }

  /** `getDayNumber` as written: the two digits of the leftmost match, else 0. */
  function GetDayNumber(id: string): (d: nat)
    ensures d <= 99
    ensures NoMatch(id) ==> d == 0
    ensures forall i: nat :: LeftmostMatch(id, i) ==> d == TwoDigits(id[i + 1], id[i + 2])
  {
    match FirstMatch(id, 0)
    case None => 0
    case Some(i) =>
      assert forall k: nat :: LeftmostMatch(id, k) ==> k == i by {
        forall k: nat | LeftmostMatch(id, k) ensures k == i {
          LeftmostUnique(id, i, k);
        }
      }
      TwoDigits(id[i + 1], id[i + 2])
  }

  /** `n` written with exactly `width` decimal digits (its last `width` digits). */
  function Pad(n: nat, width: nat): (s: string)
    ensures |s| == width && AllDigits(s)
  {
    if width == 0 then [] else Pad(n / 10, width - 1) + [DigitChar(n % 10)]
  }

  lemma PadTwo(n: nat)
    requires n <= 99
    ensures TwoDigits(Pad(n, 2)[0], Pad(n, 2)[1]) == n
  {
    assert Pad(n, 2) == [DigitChar(n / 10 % 10), DigitChar(n % 10)];
  }

  /** A day group's id: `YYYY-MM-DD`, optionally followed by `-n` to tell apart groups of the
      same day. */
  function GroupId(year: nat, month: nat, day: nat, n: Option<nat>): (id: string)
    ensures |id| >= 10
  {
    Pad(year, 4) + "-" + Pad(month, 2) + "-" + Pad(day, 2)
      + (match n case None => "" case Some(k) => "-" + DecimalString(k))
  }

  /** The id's fixed-width fields, position by position. */
  lemma GroupIdShape(year: nat, month: nat, day: nat, n: Option<nat>)
    ensures var id := GroupId(year, month, day, n);
      && AllDigits(id[..4]) && id[4] == '-' && id[7] == '-'
      && id[5] == Pad(month, 2)[0] && id[6] == Pad(month, 2)[1]
      && id[8] == Pad(day, 2)[0] && id[9] == Pad(day, 2)[1]
      && (|id| == 10 <==> n == None)
      && (n != None ==> |id| >= 12 && id[10] == '-' && IsDigit(id[11]))
  {
    var id := GroupId(year, month, day, n);
    var head := Pad(year, 4) + "-" + Pad(month, 2) + "-" + Pad(day, 2);
    assert id[..10] == head;
    assert head[..4] == Pad(year, 4);
    if n != None {
      var tail := "-" + DecimalString(n.value);
      assert id == head + tail;
      assert id[10] == tail[0] && id[11] == tail[1];
    }
  }

  /** Because matching is leftmost, the as-written day number of `YYYY-MM-DD` or `YYYY-MM-DD-n`
      is the month field, not the day. */
  lemma DayNumberReadsMonth(year: nat, month: nat, day: nat, n: Option<nat>)
    requires month <= 99
    ensures GetDayNumber(GroupId(year, month, day, n)) == month
  {
    var id := GroupId(year, month, day, n);
    GroupIdShape(year, month, day, n);
    assert MatchAt(id, 4);
    forall j: nat | j < 4 ensures !MatchAt(id, j) {
      assert id[j] == id[..4][j];
    }
    assert LeftmostMatch(id, 4);
    PadTwo(month);
  }

  /** The mock group "2025-05-26" shows 5. */
  lemma MockGroupShowsMonth()
    ensures GetDayNumber("2025-05-26") == 5
  {
    assert GroupId(2025, 5, 26, None) == "2025-05-26";
    DayNumberReadsMonth(2025, 5, 26, None);
  }

  /** The id starts with `YYYY-MM-DD` and continues, if at all, with a dash. */
  predicate DatePrefixed(id: string) {
    && |id| >= 10
    && AllDigits(id[..4]) && id[4] == '-' && IsDigit(id[5]) && IsDigit(id[6])
    && id[7] == '-' && IsDigit(id[8]) && IsDigit(id[9])
    && (|id| == 10 || id[10] == '-')
  }

  /** The day number the row header means to show: the `DD` field of a date-prefixed id, else 0. */
  function DayOfGroupId(id: string): (d: nat)
    ensures d <= 99
    ensures !DatePrefixed(id) ==> d == 0
    ensures DatePrefixed(id) ==> d == TwoDigits(id[8], id[9])
  {
    if DatePrefixed(id) then TwoDigits(id[8], id[9]) else 0
  }

  /** The corrected reading recovers the day of every well-formed group id. */
  lemma DayOfGroupIdReadsDay(year: nat, month: nat, day: nat, n: Option<nat>)
    requires day <= 99
    ensures DayOfGroupId(GroupId(year, month, day, n)) == day
  {
    GroupIdShape(year, month, day, n);
    PadTwo(day);
  }

  // ---------------------------------------------------------------- expand / collapse

  /** `expanded`: group id to flag; a missing id reads as closed. */
  type Expanded = map<string, bool>

  /** `!!expanded[id]` */
  predicate IsOpen(e: Expanded, id: string) {
    id in e && e[id]
  }

  /** `{ ...p, [id]: !p[id] }`: flips the observed state of `id` and nothing else. */
  function Toggle(e: Expanded, id: string): (r: Expanded)
    ensures id in r && (IsOpen(r, id) <==> !IsOpen(e, id))
    ensures forall k :: k in e && k != id ==> k in r && r[k] == e[k]
    ensures forall k :: k in r && k != id ==> k in e
  {
    e[id := !IsOpen(e, id)]
  }

  /** Toggling the same group twice restores what every row shows. */
  lemma ToggleTwice(e: Expanded, id: string, k: string)
    ensures IsOpen(Toggle(Toggle(e, id), id), k) == IsOpen(e, k)
  {
    var once := Toggle(e, id);
    if k != id {
      assert k in once <==> k in e;
    }
  }

  // ---------------------------------------------------------------- the expanded row

  /** An item of a day group; `kind` is its `type` field. */
  datatype TxItem = TxItem(id: string, kind: string, category: string, amount: real, description: string)

  datatype Group = Group(id: string, weekday: string, items: seq<TxItem>)

  /** The position of the first item of the given kind. */
  function FirstIndexOfKind(items: seq<TxItem>, kind: string): (r: Option<nat>)
    ensures r == None <==> forall i :: 0 <= i < |items| ==> items[i].kind != kind
    ensures r != None ==> r.value < |items| && items[r.value].kind == kind
    ensures r != None ==> forall j :: 0 <= j < r.value ==> items[j].kind != kind
  {
    if items == [] then None
    else if items[0].kind == kind then Some(0)
    else
      var rest := FirstIndexOfKind(items[1..], kind);
      assert forall i :: 1 <= i < |items| ==> items[i] == items[1..][i - 1];
      match rest
      case None => None
      case Some(i) => Some(i + 1)
  }

  /** Position `i` holds the first item of the given kind. */
  predicate IsFirstOfKind(items: seq<TxItem>, kind: string, i: int) {
    0 <= i < |items| && items[i].kind == kind && forall j :: 0 <= j < i ==> items[j].kind != kind
  }

  /** `items.find(x => x.type === kind)`: the first item of that kind, if any. */
  function FirstOfKind(items: seq<TxItem>, kind: string): (r: Option<TxItem>)
    ensures r == None <==> forall i :: 0 <= i < |items| ==> items[i].kind != kind
    ensures r != None ==> exists i :: IsFirstOfKind(items, kind, i) && items[i] == r.value
  {
    match FirstIndexOfKind(items, kind)
    case None => None
    case Some(i) => Some(items[i])
  }

  /** The expanded row's detail for one side: the category, or a dash when there is no such item,
      and the description only when it is non-empty. */
  datatype Detail = Detail(category: string, description: Option<string>)

  function DetailOf(x: Option<TxItem>): (d: Detail)
    ensures x == None ==> d == Detail("—", None)
    ensures x != None ==> d.category == x.value.category
    ensures d.description != None <==> x != None && x.value.description != ""
  {
    match x
    case None => Detail("—", None)
    case Some(t) => Detail(t.category, if t.description == "" then None else Some(t.description))
  }

  /** What a row shows: its day number, whether it is open, and the first expense and income. */
  datatype RowView = RowView(day: nat, open: bool, expense: Detail, income: Detail)

  /** The header shows the corrected day reading, `DayOfGroupId`, where the screen calls
      `getDayNumber` (see `DayNumberReadsMonth`). */
  function RenderRow(g: Group, e: Expanded): (v: RowView)
    ensures v.day <= 99 && v.open == IsOpen(e, g.id)
    ensures v.day == DayOfGroupId(g.id)
    ensures v.expense == DetailOf(FirstOfKind(g.items, "expense"))
    ensures v.income == DetailOf(FirstOfKind(g.items, "income"))
  {
    RowView(DayOfGroupId(g.id), IsOpen(e, g.id),
            DetailOf(FirstOfKind(g.items, "expense")), DetailOf(FirstOfKind(g.items, "income")))
  }

  /** The header of a well-formed group shows its day of the month, whatever the row holds. */
  lemma RenderRowShowsDay(year: nat, month: nat, day: nat, n: Option<nat>, weekday: string,
                          items: seq<TxItem>, e: Expanded)
    requires day <= 99
    ensures RenderRow(Group(GroupId(year, month, day, n), weekday, items), e).day == day
  {
    DayOfGroupIdReadsDay(year, month, day, n);
  }

  /** Toggling a group changes whether its own row is open and no other row's view. */
  lemma ToggleAffectsOnlyItsRow(g: Group, e: Expanded, id: string)
    ensures RenderRow(g, Toggle(e, id)).open == (if g.id == id then !IsOpen(e, id) else IsOpen(e, g.id))
    ensures RenderRow(g, Toggle(e, id)).day == RenderRow(g, e).day
  {
  }
}
