/**
 * The read-only helper tools: duplicate records in a CRM table
 * (findDuplicateRecords), overdue rescues nobody closed
 * (findIncompleteRescues), the rescues that can take a comment from the
 * comments file (updateSFRescuesWithComments) and the completed rescues only
 * one side knows about (findRescueDiscrepancies).
 */
module Finders {
  import opened Wrappers
  import opened Tables
  import opened Order
  import opened Rescues

  /** What findDuplicateRecords returns when no key repeats. */
  const NoDuplicatesMessage := "No duplicates were found!"

  /** findDuplicateRecords returns either the duplicate rows or the sentinel message. */
  datatype DuplicateReport<T> = Found(rows: seq<T>) | NoneFound(message: string)

  function HasKey<T>(key: T -> Cell, k: Cell): T -> bool {
    (r: T) => key(r) == k
  }

  /** The number of rows whose key is `k`. */
  function KeyCount<T(!new)>(rows: seq<T>, key: T -> Cell, k: Cell): nat {
    |Filter(rows, HasKey(key, k))|
  }

  /** The keys `groupby` visits: every key once, in sorted order. */
  function GroupKeys<T(!new)>(rows: seq<T>, key: T -> Cell): (ks: seq<Cell>)
    ensures Sorted(ks) && NoDuplicates(ks)
    ensures forall r :: r in rows ==> key(r) in ks
  {
    var sorted := Sort(Map(rows, key));
    DedupSorted(sorted);
    assert forall r :: r in rows ==> key(r) in sorted by {
      forall r | r in rows ensures key(r) in sorted {
        var i :| 0 <= i < |rows| && rows[i] == r;
        assert key(r) in multiset(Map(rows, key));
      }
    }
    Dedup(sorted)
  }

  /**
   * The groups of more than one row, concatenated in key order; `groupby`
   * leaves out the rows with a null key.
   */
  function Groups<T(!new)>(keys: seq<Cell>, rows: seq<T>, key: T -> Cell): seq<T> {
    if keys == [] then []
    else
      var g := Filter(rows, HasKey(key, keys[0]));
      (if keys[0].Some? && |g| > 1 then g else []) + Groups(keys[1..], rows, key)
  }

  /**
   * findDuplicateRecords(df, colName) (functions.py:425-432): `pd.concat` of
   * the groups of more than one row; concatenating nothing raises ValueError,
   * which is answered with the sentinel message.
   */
  function FindDuplicateRecords<T(==,!new)>(rows: seq<T>, key: T -> Cell): DuplicateReport<T> {
    var d := Groups(GroupKeys(rows, key), rows, key);
    if d == [] then NoneFound(NoDuplicatesMessage) else Found(d)
  }

  /** Each row is in the groups as often as in the table when its key is one of `keys` and repeats, and never otherwise. */
  lemma {:induction false} GroupsCount<T(!new)>(keys: seq<Cell>, rows: seq<T>, key: T -> Cell, x: T)
    requires NoDuplicates(keys)
    ensures multiset(Groups(keys, rows, key))[x] ==
      if key(x).Some? && key(x) in keys && KeyCount(rows, key, key(x)) > 1 then multiset(rows)[x] else 0
    decreases |keys|
  {
    if keys != [] {
      assert NoDuplicates(keys[1..]) by {
        forall i, j | 0 <= i < j < |keys[1..]| ensures keys[1..][i] != keys[1..][j] {
          assert keys[1..][i] == keys[i + 1] && keys[1..][j] == keys[j + 1];
        }
      }
      GroupsCount(keys[1..], rows, key, x);
      FilterCount(rows, HasKey(key, keys[0]), x);
      if key(x) == keys[0] {
        assert key(x) !in keys[1..] by {
          forall k | 0 <= k < |keys[1..]| ensures keys[1..][k] != keys[0] {
            assert keys[1..][k] == keys[k + 1];
          }
        }
      }
      assert forall k :: k in keys <==> k == keys[0] || k in keys[1..];
    }
  }

  /** Every row of the groups is a row of the table whose key is one of `keys` and not null. */
  lemma {:induction false} GroupsRows<T(!new)>(keys: seq<Cell>, rows: seq<T>, key: T -> Cell)
    ensures forall x :: x in Groups(keys, rows, key) ==> x in rows && key(x).Some? && key(x) in keys
    decreases |keys|
  {
    if keys != [] {
      GroupsRows(keys[1..], rows, key);
    }
  }

  /** The groups come in key order, so the rows of one key are contiguous. */
  lemma {:induction false} GroupsSorted<T(!new)>(keys: seq<Cell>, rows: seq<T>, key: T -> Cell)
    requires Sorted(keys)
    ensures Sorted(Map(Groups(keys, rows, key), key))
    decreases |keys|
  {
    if keys != [] {
      var g := Filter(rows, HasKey(key, keys[0]));
      var head := if keys[0].Some? && |g| > 1 then g else [];
      var rest := Groups(keys[1..], rows, key);
      assert Groups(keys, rows, key) == head + rest;
      MapAppend(head, rest, key);
      assert Sorted(keys[1..]);
      GroupsSorted(keys[1..], rows, key);
      LaterGroupsAbove(keys, rows, key);
      OneKeySorted(head, key, keys[0]);
      SortedConcat(Map(head, key), Map(rest, key));
    }
  }

  /** The keys of the groups after the first are no smaller than the first key. */
  lemma {:induction false} LaterGroupsAbove<T(!new)>(keys: seq<Cell>, rows: seq<T>, key: T -> Cell)
    requires Sorted(keys) && keys != []
    ensures forall y :: y in Map(Groups(keys[1..], rows, key), key) ==> CellLe(keys[0], y)
  {
    var rest := Groups(keys[1..], rows, key);
    GroupsRows(keys[1..], rows, key);
    forall y | y in Map(rest, key) ensures CellLe(keys[0], y) {
      MapMembers(rest, key, y);
      var k :| 0 <= k < |keys[1..]| && keys[1..][k] == y;
      assert keys[k + 1] == y;
    }
  }

  /** Rows that all carry one key `k` have a sorted key column, every entry `k`. */
  lemma {:induction false} OneKeySorted<T(!new)>(rows: seq<T>, key: T -> Cell, k: Cell)
    requires rows != [] ==> k.Some?
    requires forall x :: x in rows ==> key(x) == k
    ensures Sorted(Map(rows, key))
    ensures forall y :: y in Map(rows, key) ==> y == k
  {
    forall y | y in Map(rows, key) ensures y == k {
      MapMembers(rows, key, y);
    }
    if rows != [] {
      ConstantSorted(Map(rows, key), k);
    }
  }

  /**
   * findDuplicateRecords returns every row whose key is not null and occurs
   * more than once, as often as it occurs and no other row, grouped by key in
   * ascending order; it returns the sentinel exactly when no key repeats.
   */
  lemma FindDuplicateRecordsSpec<T(!new)>(rows: seq<T>, key: T -> Cell)
    ensures FindDuplicateRecords(rows, key).NoneFound? <==>
      forall x :: x in rows && key(x).Some? ==> KeyCount(rows, key, key(x)) <= 1
    ensures FindDuplicateRecords(rows, key).NoneFound? ==>
      FindDuplicateRecords(rows, key).message == "No duplicates were found!"
    ensures FindDuplicateRecords(rows, key).Found? ==>
      var d := FindDuplicateRecords(rows, key).rows;
      Sorted(Map(d, key)) &&
      forall x :: multiset(d)[x] == if key(x).Some? && KeyCount(rows, key, key(x)) > 1 then multiset(rows)[x] else 0
  {
    var keys := GroupKeys(rows, key);
    var d := Groups(keys, rows, key);
    GroupsSorted(keys, rows, key);
    forall x ensures multiset(d)[x] == if key(x).Some? && KeyCount(rows, key, key(x)) > 1 then multiset(rows)[x] else 0 {
      GroupsCount(keys, rows, key, x);
    }
    if d == [] {
      forall x | x in rows && key(x).Some? ensures KeyCount(rows, key, key(x)) <= 1 {
        assert multiset(d)[x] == 0;
      }
    } else {
      assert d[0] in multiset(d);
    }
  }

  /** A calendar date, compared as Python's `datetime.date` compares: year, then month, then day. */
  datatype Date = Date(year: int, month: int, day: int)

  predicate Before(a: Date, b: Date) {
    a.year < b.year || (a.year == b.year && (a.month < b.month || (a.month == b.month && a.day < b.day)))
  }

  /** The Day of Pickup Start cell: the text read from the report, or the date parsed from it. */
  datatype Pickup = Text(text: Cell) | Day(date: Date)

  /** One row of findIncompleteRescues' answer: Rescue ID, Day of Pickup Start, Rescue State, Rescue Detail URL. */
  datatype IncompleteRescue = IncompleteRescue(rescueId: Cell, pickup: Pickup, state: Cell, detailUrl: Cell)

  /** `strptime` failing on the Day of Pickup Start of the open rescue at this row. */
  datatype IncompleteError = BadPickupDate(row: nat)

  /** Neither completed nor canceled (functions.py:459); a rescue with no state counts as open. */
  predicate Open(a: AdminRescue) {
    a.state != Some("completed") && a.state != Some("canceled")
  }

  function Unparsed(a: AdminRescue): IncompleteRescue {
    IncompleteRescue(a.rescueId, Text(a.pickupStart), a.state, a.detailUrl)
  }

  /** The row with its pickup day parsed; `parseDate` stands for `strptime(..., '%Y-%m-%d')`. */
  function ParsedRow(a: AdminRescue, parseDate: Cell -> Option<Date>): IncompleteRescue
    requires parseDate(a.pickupStart).Some?
  {
    IncompleteRescue(a.rescueId, Day(parseDate(a.pickupStart).value), a.state, a.detailUrl)
  }

  predicate Overdue(r: IncompleteRescue, today: Date) {
    r.pickup.Day? && Before(r.pickup.date, today)
  }

  /** The test `rescuesDF['Day of Pickup Start'] < today` as a row filter. */
  function OverdueOn(today: Date): IncompleteRescue -> bool {
    (x: IncompleteRescue) => Overdue(x, today)
  }

  /** The open rows with their pickup days parsed, in file order: the frame once the parsing loop is done. */
  function ParsedAll(open: seq<AdminRescue>, parseDate: Cell -> Option<Date>): (ps: seq<IncompleteRescue>)
    requires forall a :: a in open ==> parseDate(a.pickupStart).Some?
    ensures |ps| == |open|
    ensures forall k :: 0 <= k < |open| ==> ps[k] == ParsedRow(open[k], parseDate)
  {
    if open == [] then [] else [ParsedRow(open[0], parseDate)] + ParsedAll(open[1..], parseDate)
  }

  /**
   * findIncompleteRescues (functions.py:456-469), with the date parser and
   * today's date as parameters: the open rescues, their pickup days parsed in
   * place one row at a time, those picked up before today, projected to four
   * columns without repeats, first occurrences in file order. A pickup day
   * that does not parse raises at the first such row.
   */
  method FindIncompleteRescues(rescues: seq<AdminRescue>, parseDate: Cell -> Option<Date>, today: Date)
    returns (r: Result<seq<IncompleteRescue>, IncompleteError>)
    ensures r.Ok? <==> forall a :: a in rescues && Open(a) ==> parseDate(a.pickupStart).Some?
    ensures r.Err? ==> var open := Filter(rescues, Open);
      r.error.row < |open| && parseDate(open[r.error.row].pickupStart).None? &&
      forall k :: 0 <= k < r.error.row ==> parseDate(open[k].pickupStart).Some?
    ensures r.Ok? ==> NoDuplicates(r.value)
    ensures r.Ok? ==> ((forall a :: a in Filter(rescues, Open) ==> parseDate(a.pickupStart).Some?)
      && r.value == Dedup(Filter(ParsedAll(Filter(rescues, Open), parseDate), OverdueOn(today))))
    ensures r.Ok? ==> forall a :: a in rescues && Open(a) && Before(parseDate(a.pickupStart).value, today) ==>
      ParsedRow(a, parseDate) in r.value
    ensures r.Ok? ==> forall x :: x in r.value ==>
      exists a :: a in rescues && Open(a) && x == ParsedRow(a, parseDate) && Before(parseDate(a.pickupStart).value, today)
  {
    var open := Filter(rescues, Open);
    var frame := new IncompleteRescue[|open|](k requires 0 <= k < |open| => Unparsed(open[k]));
    var i := 0;
    while i < frame.Length
      invariant 0 <= i <= frame.Length == |open|
      invariant forall k :: 0 <= k < i ==> parseDate(open[k].pickupStart).Some? && frame[k] == ParsedRow(open[k], parseDate)
      invariant forall k :: i <= k < frame.Length ==> frame[k] == Unparsed(open[k])
    {
      var day := parseDate(frame[i].pickup.text);
      if day.None? {
        assert open[i] in open;
        return Err(BadPickupDate(i));
      }
      frame[i] := frame[i].(pickup := Day(day.value));
      i := i + 1;
    }
    forall a | a in rescues && Open(a) ensures parseDate(a.pickupStart).Some? {
      var k :| 0 <= k < |open| && open[k] == a;
    }
    assert frame[..] == ParsedAll(open, parseDate);
    IncompleteRescuesMembers(rescues, parseDate, today);
    r := Ok(Dedup(Filter(frame[..], OverdueOn(today))));
  }

  /**
   * The open rescues picked up before today, parsed and without repeats, are
   * exactly the parsed rows of the open rescues whose pickup day is past.
   */
  lemma {:induction false} IncompleteRescuesMembers(rescues: seq<AdminRescue>, parseDate: Cell -> Option<Date>, today: Date)
    requires forall a :: a in rescues && Open(a) ==> parseDate(a.pickupStart).Some?
    ensures forall a :: a in Filter(rescues, Open) ==> parseDate(a.pickupStart).Some?
    ensures var d := Dedup(Filter(ParsedAll(Filter(rescues, Open), parseDate), OverdueOn(today)));
      forall a :: a in rescues && Open(a) && Before(parseDate(a.pickupStart).value, today) ==> ParsedRow(a, parseDate) in d
    ensures var d := Dedup(Filter(ParsedAll(Filter(rescues, Open), parseDate), OverdueOn(today)));
      forall x :: x in d ==>
        exists a :: a in rescues && Open(a) && x == ParsedRow(a, parseDate) && Before(parseDate(a.pickupStart).value, today)
  {
    var open := Filter(rescues, Open);
    var ps := ParsedAll(open, parseDate);
    var past := Filter(ps, OverdueOn(today));
    forall a | a in rescues && Open(a) && Before(parseDate(a.pickupStart).value, today)
      ensures ParsedRow(a, parseDate) in past
    {
      var k :| 0 <= k < |open| && open[k] == a;
      assert ps[k] == ParsedRow(a, parseDate);
    }
    forall x | x in past
      ensures exists a :: a in rescues && Open(a) && x == ParsedRow(a, parseDate) && Before(parseDate(a.pickupStart).value, today)
    {
      var k :| 0 <= k < |ps| && ps[k] == x;
      assert open[k] in open;
    }
  }

  /** One row of the CRM's Food_Rescue__c query for comments (Id, Rescue_Id__c, Comments__c). */
  datatype CrmRescueComments = CrmRescueComments(id: string, rescueId: Cell, comments: Cell)

  /** One row of the comments file (Rescue ID, Comments). */
  datatype CommentRow = CommentRow(rescueId: Cell, comments: Cell)

  /** One row of the update sent to the CRM (Id, Comments__c). */
  datatype CommentUpdate = CommentUpdate(id: string, comments: string)

  function CrmRescueKey(s: CrmRescueComments): Cell {
    s.rescueId
  }

  function CommentKey(c: CommentRow): Cell {
    c.rescueId
  }

  function ToCommentUpdate(p: (CrmRescueComments, CommentRow)): CommentUpdate {
    CommentUpdate(p.0.id, if p.1.comments.Some? then p.1.comments.value else "")
  }

  /**
   * The data logic of updateSFRescuesWithComments (functions.py:481-497): CRM
   * rescues without comments, merged on Rescue ID with the comment rows that
   * carry a comment, the rows that found one kept.
   */
  function CommentUpdates(crm: seq<CrmRescueComments>, comments: seq<CommentRow>): seq<CommentUpdate> {
    var bare := Filter(crm, (s: CrmRescueComments) => s.comments.None?);
    var given := Filter(comments, (c: CommentRow) => c.comments.Some?);
    Map(Matched(LeftJoin(bare, given, CrmRescueKey, CommentKey)), ToCommentUpdate)
  }

  /**
   * An update is sent exactly for each CRM rescue without comments and each
   * non-empty comment row with the same Rescue ID; a rescue that already has
   * comments is never overwritten.
   */
  lemma CommentUpdatesSpec(crm: seq<CrmRescueComments>, comments: seq<CommentRow>)
    ensures forall s, c :: s in crm && s.comments.None? && c in comments && c.comments.Some? && c.rescueId == s.rescueId ==>
      CommentUpdate(s.id, c.comments.value) in CommentUpdates(crm, comments)
    ensures forall u :: u in CommentUpdates(crm, comments) ==>
      exists s, c :: (s in crm && s.comments.None? && c in comments && c.comments.Some? &&
        c.rescueId == s.rescueId && u == CommentUpdate(s.id, c.comments.value))
  {
    var bare := Filter(crm, (s: CrmRescueComments) => s.comments.None?);
    var given := Filter(comments, (c: CommentRow) => c.comments.Some?);
    var m := Matched(LeftJoin(bare, given, CrmRescueKey, CommentKey));
    InnerJoin(bare, given, CrmRescueKey, CommentKey);
    forall s, c | s in crm && s.comments.None? && c in comments && c.comments.Some? && c.rescueId == s.rescueId
      ensures CommentUpdate(s.id, c.comments.value) in CommentUpdates(crm, comments)
    {
      assert (s, c) in m;
      var i :| 0 <= i < |m| && m[i] == (s, c);
      assert CommentUpdates(crm, comments)[i] == ToCommentUpdate((s, c));
    }
    forall u | u in CommentUpdates(crm, comments)
      ensures exists s, c :: (s in crm && s.comments.None? && c in comments && c.comments.Some? &&
        c.rescueId == s.rescueId && u == CommentUpdate(s.id, c.comments.value))
    {
      var i :| 0 <= i < |m| && u == ToCommentUpdate(m[i]);
      assert m[i] in m;
      assert (m[i].0, m[i].1) in m;
    }
  }

  /** The two columns of the CRM's rescue query that findRescueDiscrepancies compares. */
  datatype CrmRescueState = CrmRescueState(rescueId: Cell, state: Cell)

  /** `choose` was neither 1 nor 2, so `res` is never bound and reading it raises. */
  datatype DiscrepancyError = UnknownMode(choose: int)

  /** `sort_values` on the completed rows, then their Rescue ID column (functions.py:506-509, 515-521). */
  function CrmCompletedIds(crm: seq<CrmRescueState>): seq<Cell> {
    Sort(Map(Filter(crm, CrmCompleted), CrmId))
  }

  function AdminCompletedIds(admin: seq<AdminRescue>): seq<Cell> {
    Sort(Map(Filter(admin, AdminCompleted), AdminId))
  }

  function NotIn(other: seq<Cell>): Cell -> bool {
    (x: Cell) => x !in other
  }

  /**
   * findRescueDiscrepancies (functions.py:501-534): the Rescue IDs of completed
   * rescues, each side sorted; mode 1 keeps the CRM's IDs the admin tool does
   * not have, mode 2 the admin tool's IDs the CRM does not have.
   */
  function FindRescueDiscrepancies(crm: seq<CrmRescueState>, admin: seq<AdminRescue>, choose: int)
    : (r: Result<seq<Cell>, DiscrepancyError>)
    ensures r.Err? <==> choose != 1 && choose != 2
    ensures r.Ok? ==> Sorted(r.value)
  {
    var sf, ad := CrmCompletedIds(crm), AdminCompletedIds(admin);
    if choose == 1 then
      FilterSorted(sf, NotIn(ad));
      Ok(Filter(sf, NotIn(ad)))
    else if choose == 2 then
      FilterSorted(ad, NotIn(sf));
      Ok(Filter(ad, NotIn(sf)))
    else Err(UnknownMode(choose))
  }

  /** A Rescue ID occurs on one completed side and not on the other, as often as it occurs there. */
  lemma DiscrepanciesSpec(crm: seq<CrmRescueState>, admin: seq<AdminRescue>, choose: int, x: Cell)
    requires choose == 1 || choose == 2
    ensures var sf, ad := CrmCompletedIds(crm), AdminCompletedIds(admin);
      var mine, theirs := if choose == 1 then sf else ad, if choose == 1 then ad else sf;
      multiset(FindRescueDiscrepancies(crm, admin, choose).value)[x] == if x in theirs then 0 else multiset(mine)[x]
  {
    var sf, ad := CrmCompletedIds(crm), AdminCompletedIds(admin);
    if choose == 1 {
      FilterCount(sf, NotIn(ad), x);
    } else {
      FilterCount(ad, NotIn(sf), x);
    }
  }

  predicate CrmCompleted(s: CrmRescueState) {
    s.state == Some("completed")
  }

  predicate AdminCompleted(a: AdminRescue) {
    a.state == Some("completed")
  }

  function CrmId(s: CrmRescueState): Cell {
    s.rescueId
  }

  function AdminId(a: AdminRescue): Cell {
    a.rescueId
  }

  /** The IDs on each side are exactly those of its completed rescues. */
  lemma CompletedIdsMembers(crm: seq<CrmRescueState>, admin: seq<AdminRescue>, x: Cell)
    ensures x in CrmCompletedIds(crm) <==> exists s :: s in crm && CrmCompleted(s) && s.rescueId == x
    ensures x in AdminCompletedIds(admin) <==> exists a :: a in admin && AdminCompleted(a) && a.rescueId == x
  {
    SortMembers(Map(Filter(crm, CrmCompleted), CrmId), x);
    MapMembers(Filter(crm, CrmCompleted), CrmId, x);
    SortMembers(Map(Filter(admin, AdminCompleted), AdminId), x);
    MapMembers(Filter(admin, AdminCompleted), AdminId, x);
  }

  /** A Rescue ID is reported in mode 1 exactly when it is completed in the CRM and not in the admin tool. */
  lemma CrmOnlyIds(crm: seq<CrmRescueState>, admin: seq<AdminRescue>, x: Cell)
    ensures x in FindRescueDiscrepancies(crm, admin, 1).value <==>
      (exists s :: s in crm && CrmCompleted(s) && s.rescueId == x) &&
      forall a :: a in admin && AdminCompleted(a) ==> a.rescueId != x
  {
    CompletedIdsMembers(crm, admin, x);
  }

  /** A Rescue ID is reported in mode 2 exactly when it is completed in the admin tool and not in the CRM. */
  lemma AdminOnlyIds(crm: seq<CrmRescueState>, admin: seq<AdminRescue>, x: Cell)
    ensures x in FindRescueDiscrepancies(crm, admin, 2).value <==>
      (exists a :: a in admin && AdminCompleted(a) && a.rescueId == x) &&
      forall s :: s in crm && CrmCompleted(s) ==> s.rescueId != x
  {
    CompletedIdsMembers(crm, admin, x);
  }
}
