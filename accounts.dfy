/**
 * The account reconciler (uploadAccounts): which admin-tool accounts are new
 * to the CRM, how they are split into two upload batches so that a parent
 * account exists before its children, and how the children of parents
 * created by the first batch find their parent's Id afterwards.
 */
module Accounts {
  import opened Wrappers
  import opened Tables
  import opened Names

  /** One row of the CRM's Account query (Id, Name, RecordTypeId); the CRM always returns an Id. */
  datatype CrmAccount = CrmAccount(id: string, name: Cell, recordTypeId: Cell)

  /** A CRM account of the type being uploaded, with its name normalised. */
  datatype KnownAccount = KnownAccount(id: string, name: string)

  /** One row of the admin-tool export, with the columns uploadAccounts renames it to. */
  datatype AdminAccount = AdminAccount(
    parentName: Cell, name: Cell, phone: Cell, line1: Cell, line2: Cell,
    city: Cell, state: Cell, postalCode: Cell)

  /**
   * A new account as it goes into the batches: the admin row with names
   * normalised, the two address lines merged into ShippingStreet, and the
   * ParentId and RecordTypeId columns added.
   */
  datatype NewAccount = NewAccount(
    parentName: string, name: string, phone: Cell, city: Cell, state: Cell,
    postalCode: Cell, street: Cell, parentId: Cell, recordTypeId: string)

  /** The row sent to the CRM: a new account without its Parent Name column. */
  datatype AccountUpload = AccountUpload(
    name: string, phone: Cell, city: Cell, state: Cell, postalCode: Cell,
    street: Cell, parentId: Cell, recordTypeId: string)

  /** The two upload batches, before de-duplication and before parent Ids are attached. */
  datatype Batches = Batches(first: seq<NewAccount>, second: seq<NewAccount>)

  /** The two batches as uploaded. */
  datatype AccountUploads = AccountUploads(first: seq<AccountUpload>, second: seq<AccountUpload>)

  /** Why uploadAccounts stopped, with the rows it had already sent to the CRM by then. */
  datatype UploadFailure = UploadFailure(uploaded: seq<AccountUpload>, cause: AccountError)

  /**
   * `.item()` on a lookup that did not find exactly one account: several known
   * accounts share a parent's name, or the refreshed snapshot holds zero or
   * several accounts with a child's parent name.
   */
  datatype AccountError =
    | AmbiguousParent(parentName: string)
    | ParentLookupFailed(parentName: string, matches: nat)

  function Known(c: CrmAccount): KnownAccount {
    KnownAccount(c.id, NormalizeCell(c.name))
  }

  /** The CRM accounts of record type `t`, projected to Id and Name, names normalised. */
  function KnownAccounts(crm: seq<CrmAccount>, t: string): (known: seq<KnownAccount>)
    ensures |known| <= |crm|
    ensures forall c :: c in crm && c.recordTypeId == Some(t) ==> Known(c) in known
    ensures forall k :: k in known ==> exists c :: c in crm && c.recordTypeId == Some(t) && k == Known(c)
    ensures forall k :: k in known ==> Canonical(k.name)
  {
    if crm == [] then []
    else
      NormalizeCanonical(CellText(crm[0].name));
      assert forall c :: c in crm ==> c == crm[0] || c in crm[1..];
      (if crm[0].recordTypeId == Some(t) then [Known(crm[0])] else []) + KnownAccounts(crm[1..], t)
  }

  /** pandas `+` on two text cells: the concatenation, or null when either side is null. */
  function Concat(a: Cell, b: Cell): Cell {
    if a.Some? && b.Some? then Some(a.value + b.value) else None
  }

  /** pandas `fillna(d)` on one cell. */
  function FillNa(c: Cell, d: string): Cell {
    if c.None? then Some(d) else c
  }

  /** `Line1 + (' ' + Line2).fillna('')`. */
  function Street(line1: Cell, line2: Cell): (s: Cell)
    ensures line1.None? ==> s.None?
    ensures line1.Some? && line2.None? ==> s == line1
    ensures line1.Some? && line2.Some? ==> s == Some(line1.value + " " + line2.value)
  {
    assert line1.Some? ==> line1.value + "" == line1.value;
    assert line1.Some? && line2.Some? ==> line1.value + (" " + line2.value) == line1.value + " " + line2.value;
    Concat(line1, FillNa(Concat(Some(" "), line2), ""))
  }

  /** An admin row as a new account of type `t`: names normalised, street merged, no parent yet. */
  function ToNew(t: string): AdminAccount -> NewAccount {
    (a: AdminAccount) => NewAccount(
      NormalizeCell(a.parentName), NormalizeCell(a.name), a.phone, a.city, a.state,
      a.postalCode, Street(a.line1, a.line2), None, t)
  }

  function AdminName(a: AdminAccount): string {
    NormalizeCell(a.name)
  }

  function KnownName(k: KnownAccount): string {
    k.name
  }

  /** The merge on Name, the Id-is-null filter and the new columns (functions.py:193-203). */
  function NewAccounts(admin: seq<AdminAccount>, known: seq<KnownAccount>, t: string): seq<NewAccount> {
    Map(Unmatched(LeftJoin(admin, known, AdminName, KnownName)), ToNew(t))
  }

  /** The admin accounts whose normalised name no CRM account of type `t` has. */
  function UnknownTo(crm: seq<CrmAccount>, t: string): AdminAccount -> bool {
    (a: AdminAccount) => forall c :: c in crm && c.recordTypeId == Some(t) ==> NormalizeCell(c.name) != NormalizeCell(a.name)
  }

  /**
   * The new accounts are exactly the admin rows, in their original order,
   * whose normalised name equals the normalised name of no CRM account of the
   * uploaded type; each keeps its row as `ToNew` rewrites it.
   */
  lemma NewAccountsAreUnknownAdmins(admin: seq<AdminAccount>, crm: seq<CrmAccount>, t: string)
    ensures NewAccounts(admin, KnownAccounts(crm, t), t) == Map(Filter(admin, UnknownTo(crm, t)), ToNew(t))
  {
    var known := KnownAccounts(crm, t);
    UnmatchedIsAntiJoin(admin, known, AdminName, KnownName);
    forall a | a in admin
      ensures UnknownTo(crm, t)(a) <==> forall k :: k in known ==> KnownName(k) != AdminName(a)
    {
      if UnknownTo(crm, t)(a) {
        forall k | k in known ensures KnownName(k) != AdminName(a) {
          var c :| c in crm && c.recordTypeId == Some(t) && k == Known(c);
        }
      } else {
        var c :| c in crm && c.recordTypeId == Some(t) && NormalizeCell(c.name) == NormalizeCell(a.name);
        assert Known(c) in known;
      }
    }
    WithoutMatchIsFilter(admin, known, AdminName, KnownName, UnknownTo(crm, t));
  }

  /** Where a new account's parent comes from (functions.py:213-224). */
  datatype Placement =
    | SelfParented
    | KnownParent(parentId: string)
    | NewParent
    | AmbiguousParentName

  /**
   * The branch one new account takes (functions.py:213-219): it is its own
   * parent; its parent name is carried by exactly one known account, whose Id
   * it takes; by none; or by several, where `.item()` fails.
   */
  function Place(row: NewAccount, known: seq<KnownAccount>): Placement {
    if row.name == row.parentName then SelfParented
    else
      var ids := KnownIds(known, row.parentName);
      if ids == [] then NewParent
      else if |ids| == 1 then KnownParent(ids[0])
      else AmbiguousParentName
  }

  /** The Ids of the known accounts named `name`, in order: `df[df['Name'] == name]['Id']`. */
  function KnownIds(known: seq<KnownAccount>, name: string): seq<string> {
    if known == [] then []
    else (if known[0].name == name then [known[0].id] else []) + KnownIds(known[1..], name)
  }

  lemma {:induction false} KnownIdsOfAbsentName(known: seq<KnownAccount>, name: string)
    requires forall k :: k in known ==> k.name != name
    ensures KnownIds(known, name) == []
    decreases |known|
  {
    if known != [] {
      assert known[0] in known;
      KnownIdsOfAbsentName(known[1..], name);
    }
  }

  /** The lookup finds the Ids of exactly the known accounts of that name, and at most one when names are unique. */
  lemma {:induction false} KnownIdsSpec(known: seq<KnownAccount>, name: string)
    ensures forall id :: id in KnownIds(known, name) <==> exists k :: k in known && k.name == name && k.id == id
    ensures KeysUnique(known, KnownName) ==> |KnownIds(known, name)| <= 1
    decreases |known|
  {
    if known != [] {
      KnownIdsSpec(known[1..], name);
      assert forall k :: k in known <==> k == known[0] || k in known[1..];
      if KeysUnique(known, KnownName) {
        assert KeysUnique(known[1..], KnownName) by {
          forall i, j | 0 <= i < j < |known[1..]| ensures KnownName(known[1..][i]) != KnownName(known[1..][j]) {
            assert known[1..][i] == known[i + 1] && known[1..][j] == known[j + 1];
          }
        }
        if known[0].name == name {
          forall k | k in known[1..] ensures k.name != name {
            var j :| 0 <= j < |known[1..]| && known[1..][j] == k;
            assert known[j + 1] == k;
          }
          KnownIdsOfAbsentName(known[1..], name);
        }
      }
    }
  }

  /**
   * The placement in terms of the known accounts alone: an account is
   * self-parented exactly when it names itself as parent; it needs a new
   * parent exactly when no known account carries its parent name; a parent
   * Id it takes belongs to a known account of that name; and when known names
   * are unique no lookup is ambiguous.
   */
  lemma PlaceSpec(row: NewAccount, known: seq<KnownAccount>)
    ensures Place(row, known) == SelfParented <==> row.name == row.parentName
    ensures Place(row, known) == NewParent <==>
      row.name != row.parentName && forall k :: k in known ==> k.name != row.parentName
    ensures Place(row, known).KnownParent? ==>
      exists k :: k in known && k.name == row.parentName && k.id == Place(row, known).parentId
    ensures Place(row, known).KnownParent? || Place(row, known) == AmbiguousParentName <==>
      row.name != row.parentName && exists k :: k in known && k.name == row.parentName
    ensures KeysUnique(known, KnownName) ==> Place(row, known) != AmbiguousParentName
  {
    KnownIdsSpec(known, row.parentName);
    var ids := KnownIds(known, row.parentName);
    forall k | k in known && k.name == row.parentName ensures k.id in ids {
    }
    if ids != [] {
      assert ids[0] in ids;
    }
  }

  /** The placeholder account created for a parent the CRM does not have yet. */
  function ParentStub(parentName: string, t: string): NewAccount {
    NewAccount(parentName, parentName, None, None, None, None, None, None, t)
  }

  /** The account's parent name does not belong to several known accounts. */
  predicate Resolvable(row: NewAccount, known: seq<KnownAccount>) {
    Place(row, known) != AmbiguousParentName
  }

  /** The row one new account contributes to the first batch. */
  function FirstBatchRow(row: NewAccount, known: seq<KnownAccount>, t: string): NewAccount
    requires Resolvable(row, known)
  {
    match Place(row, known)
    case SelfParented => row
    case KnownParent(id) => row.(parentId := Some(id))
    case NewParent => ParentStub(row.parentName, t)
  }

  /** The accounts deferred to the second batch: those whose parent is created by the first. */
  function NeedsNewParent(known: seq<KnownAccount>): NewAccount -> bool {
    (row: NewAccount) => Place(row, known) == NewParent
  }

  /** The accounts deferred to the second batch, as the loop collects them: row by row. */
  function Deferred(rows: seq<NewAccount>, known: seq<KnownAccount>): seq<NewAccount> {
    if rows == [] then []
    else
      var last := rows[|rows| - 1];
      Deferred(rows[..|rows| - 1], known) + if Place(last, known) == NewParent then [last] else []
  }

  lemma DeferredSnoc(rows: seq<NewAccount>, row: NewAccount, known: seq<KnownAccount>)
    ensures Deferred(rows + [row], known) == Deferred(rows, known) + if Place(row, known) == NewParent then [row] else []
  {
    assert (rows + [row])[..|rows|] == rows;
  }

  lemma {:induction false} DeferredIsFilter(rows: seq<NewAccount>, known: seq<KnownAccount>)
    ensures Deferred(rows, known) == Filter(rows, NeedsNewParent(known))
    decreases |rows|
  {
    if rows != [] {
      var n := |rows| - 1;
      DeferredIsFilter(rows[..n], known);
      assert rows == rows[..n] + [rows[n]];
      FilterSnoc(rows[..n], rows[n], NeedsNewParent(known));
    }
  }

  /**
   * Every deferred child names a parent no known account carries, and the
   * first batch holds the stub that creates that parent, so the parent exists
   * in the CRM before the child is uploaded.
   */
  lemma ParentsBeforeChildren(rows: seq<NewAccount>, known: seq<KnownAccount>, t: string, c: NewAccount)
    requires forall i :: 0 <= i < |rows| ==> Resolvable(rows[i], known)
    requires c in Deferred(rows, known)
    ensures c in rows && c.name != c.parentName
    ensures forall k :: k in known ==> k.name != c.parentName
    ensures exists i :: 0 <= i < |rows| && FirstBatchRow(rows[i], known, t) == ParentStub(c.parentName, t)
  {
    DeferredIsFilter(rows, known);
    PlaceSpec(c, known);
    var i :| 0 <= i < |rows| && rows[i] == c;
    assert FirstBatchRow(rows[i], known, t) == ParentStub(c.parentName, t);
  }

  /**
   * One pass of the loop that fills the two batches (functions.py:211-224):
   * the row the account adds to the first batch, and whether the account
   * itself is deferred to the second.
   */
  method PlaceAccount(row: NewAccount, known: seq<KnownAccount>, t: string)
    returns (r: Result<(NewAccount, bool), AccountError>)
    ensures r.Err? <==> !Resolvable(row, known)
    ensures r.Err? ==> r.error == AmbiguousParent(row.parentName)
    ensures r.Ok? ==> r.value.0 == FirstBatchRow(row, known, t) && (r.value.1 <==> NeedsNewParent(known)(row))
  {
    if row.name == row.parentName {
      r := Ok((row, false));
    } else {
      var ids := KnownIds(known, row.parentName);
      if ids != [] {
        if |ids| != 1 {
          return Err(AmbiguousParent(row.parentName));
        }
        r := Ok((row.(parentId := Some(ids[0])), false));
      } else {
        r := Ok((ParentStub(row.parentName, t), true));
      }
    }
  }

  /**
   * The loop that fills the two batches (functions.py:206-224). Every new
   * account contributes exactly one row to the first batch, in order: itself,
   * itself with its parent's Id, or a stub for its parent; the accounts that
   * got a stub go to the second batch, in the order the loop meets them
   * (`DeferredIsFilter` says which accounts those are). The first
   * account whose parent name several known accounts share stops the loop.
   */
  method PartitionNewAccounts(rows: seq<NewAccount>, known: seq<KnownAccount>, t: string)
    returns (r: Result<Batches, AccountError>)
    ensures r.Err? <==> exists i :: 0 <= i < |rows| && !Resolvable(rows[i], known)
    ensures r.Err? ==> exists i :: (0 <= i < |rows| && !Resolvable(rows[i], known)
      && r.error == AmbiguousParent(rows[i].parentName)
      && forall j :: 0 <= j < i ==> Resolvable(rows[j], known))
    ensures r.Ok? ==> (|r.value.first| == |rows|
      && forall i :: 0 <= i < |rows| ==> Resolvable(rows[i], known) && r.value.first[i] == FirstBatchRow(rows[i], known, t))
    ensures r.Ok? ==> r.value.second == Deferred(rows, known)
  {
    var first: seq<NewAccount> := [];
    var second: seq<NewAccount> := [];
    var i := 0;
    while i < |rows|
      invariant i <= |rows|
      invariant PartitionedUpTo(rows, known, t, i, first, second)
    {
      var placed := PlaceAccount(rows[i], known, t);
      if placed.Err? {
        PartitionStuck(rows, known, t, i, first, second);
        return Err(placed.error);
      }
      PartitionStep(rows, known, t, i, first, second);
      first := first + [placed.value.0];
      if placed.value.1 {
        second := second + [rows[i]];
      }
      i := i + 1;
    }
    PartitionDone(rows, known, t, first, second);
    r := Ok(Batches(first, second));
  }

  /** The loop has filled both batches from the first `i` new accounts. */
  predicate PartitionedUpTo(rows: seq<NewAccount>, known: seq<KnownAccount>, t: string, i: nat,
                            first: seq<NewAccount>, second: seq<NewAccount>) {
    i <= |rows| && FirstBatchOf(rows[..i], known, t, first) && second == Deferred(rows[..i], known)
  }

  lemma PartitionStep(rows: seq<NewAccount>, known: seq<KnownAccount>, t: string, i: nat,
                      first: seq<NewAccount>, second: seq<NewAccount>)
    requires PartitionedUpTo(rows, known, t, i, first, second) && i < |rows| && Resolvable(rows[i], known)
    ensures PartitionedUpTo(rows, known, t, i + 1, first + [FirstBatchRow(rows[i], known, t)],
      second + if Place(rows[i], known) == NewParent then [rows[i]] else [])
  {
    FirstBatchSnoc(rows[..i], rows[i], known, t, first);
    DeferredSnoc(rows[..i], rows[i], known);
    assert rows[..i + 1] == rows[..i] + [rows[i]];
  }

  /** The first account whose parent name is ambiguous: every earlier one was placed. */
  lemma PartitionStuck(rows: seq<NewAccount>, known: seq<KnownAccount>, t: string, i: nat,
                       first: seq<NewAccount>, second: seq<NewAccount>)
    requires PartitionedUpTo(rows, known, t, i, first, second) && i < |rows| && !Resolvable(rows[i], known)
    ensures exists k :: 0 <= k < |rows| && !Resolvable(rows[k], known)
    ensures exists k :: (0 <= k < |rows| && !Resolvable(rows[k], known)
      && AmbiguousParent(rows[i].parentName) == AmbiguousParent(rows[k].parentName)
      && forall j :: 0 <= j < k ==> Resolvable(rows[j], known))
  {
    forall j | 0 <= j < i ensures Resolvable(rows[j], known) {
      assert rows[..i][j] == rows[j];
    }
  }

  lemma PartitionDone(rows: seq<NewAccount>, known: seq<KnownAccount>, t: string,
                      first: seq<NewAccount>, second: seq<NewAccount>)
    requires PartitionedUpTo(rows, known, t, |rows|, first, second)
    ensures !exists i :: 0 <= i < |rows| && !Resolvable(rows[i], known)
    ensures |first| == |rows|
    ensures forall i :: 0 <= i < |rows| ==> Resolvable(rows[i], known) && first[i] == FirstBatchRow(rows[i], known, t)
    ensures second == Deferred(rows, known)
  {
    assert rows[..|rows|] == rows;
  }

  /** `first` holds, row for row, what each of `rows` contributes to the first batch. */
  predicate FirstBatchOf(rows: seq<NewAccount>, known: seq<KnownAccount>, t: string, first: seq<NewAccount>) {
    |first| == |rows|
    && forall j :: 0 <= j < |rows| ==> Resolvable(rows[j], known) && first[j] == FirstBatchRow(rows[j], known, t)
  }

  lemma FirstBatchSnoc(rows: seq<NewAccount>, row: NewAccount, known: seq<KnownAccount>, t: string, first: seq<NewAccount>)
    requires FirstBatchOf(rows, known, t, first)
    requires Resolvable(row, known)
    ensures FirstBatchOf(rows + [row], known, t, first + [FirstBatchRow(row, known, t)])
  {
    var rs, fs := rows + [row], first + [FirstBatchRow(row, known, t)];
    forall j | 0 <= j < |rs| ensures Resolvable(rs[j], known) && fs[j] == FirstBatchRow(rs[j], known, t) {
      if j < |rows| {
        assert rs[j] == rows[j] && fs[j] == first[j];
      }
    }
  }

  /** The Ids of the refreshed CRM accounts of type `t` whose name, not normalised, is `parentName`. */
  function RefreshedIds(refreshed: seq<CrmAccount>, t: string, parentName: string): (ids: seq<string>)
    ensures |ids| <= |refreshed|
    ensures forall id :: id in ids <==>
      exists c :: c in refreshed && c.recordTypeId == Some(t) && c.name == Some(parentName) && c.id == id
  {
    if refreshed == [] then []
    else
      var c := refreshed[0];
      assert forall c' :: c' in refreshed ==> c' == c || c' in refreshed[1..];
      (if c.recordTypeId == Some(t) && c.name == Some(parentName) then [c.id] else [])
        + RefreshedIds(refreshed[1..], t, parentName)
  }

  /** A second-batch account with its parent's Id taken from the refreshed snapshot. */
  function WithParentId(child: NewAccount, refreshed: seq<CrmAccount>, t: string): NewAccount
    requires |RefreshedIds(refreshed, t, child.parentName)| == 1
  {
    child.(parentId := Some(RefreshedIds(refreshed, t, child.parentName)[0]))
  }

  /** `after` is `before` with its parent's Id written in. */
  predicate Attached(before: NewAccount, after: NewAccount, refreshed: seq<CrmAccount>, t: string) {
    |RefreshedIds(refreshed, t, before.parentName)| == 1 && after == WithParentId(before, refreshed, t)
  }

  /**
   * The loop that writes ParentId into the second batch, row by row, from the
   * CRM snapshot taken after the first upload (functions.py:251-254). It
   * stops at the first child whose parent name does not match exactly one
   * refreshed account, leaving the rows before it written and the rest as
   * they were.
   */
  method AttachParentIds(children: array<NewAccount>, refreshed: seq<CrmAccount>, t: string)
    returns (err: Option<AccountError>)
    modifies children
    ensures err.None? <==> forall i :: 0 <= i < children.Length ==>
      |RefreshedIds(refreshed, t, old(children[i]).parentName)| == 1
    ensures err.None? ==> forall i :: 0 <= i < children.Length ==> Attached(old(children[i]), children[i], refreshed, t)
    ensures err.Some? ==> exists i :: (0 <= i < children.Length
      && |RefreshedIds(refreshed, t, old(children[i]).parentName)| != 1
      && err.value == ParentLookupFailed(old(children[i]).parentName, |RefreshedIds(refreshed, t, old(children[i]).parentName)|)
      && (forall j :: 0 <= j < i ==> Attached(old(children[j]), children[j], refreshed, t))
      && (forall j :: i <= j < children.Length ==> children[j] == old(children[j])))
  {
    var i := 0;
    while i < children.Length
      invariant 0 <= i <= children.Length
      invariant forall j :: 0 <= j < i ==> Attached(old(children[j]), children[j], refreshed, t)
      invariant forall j :: i <= j < children.Length ==> children[j] == old(children[j])
    {
      var ids := RefreshedIds(refreshed, t, children[i].parentName);
      if |ids| != 1 {
        return Some(ParentLookupFailed(children[i].parentName, |ids|));
      }
      children[i] := children[i].(parentId := Some(ids[0]));
      i := i + 1;
    }
    err := None;
  }

  /** Dropping the Parent Name column. */
  function Project(a: NewAccount): AccountUpload {
    AccountUpload(a.name, a.phone, a.city, a.state, a.postalCode, a.street, a.parentId, a.recordTypeId)
  }

  /** The first batch before `drop_duplicates`: each new account's row, in order. */
  function FirstBatch(rows: seq<NewAccount>, known: seq<KnownAccount>, t: string): (b: seq<NewAccount>)
    requires forall i :: 0 <= i < |rows| ==> Resolvable(rows[i], known)
    ensures |b| == |rows|
    ensures forall i :: 0 <= i < |rows| ==> b[i] == FirstBatchRow(rows[i], known, t)
  {
    seq(|rows|, i requires 0 <= i < |rows| => FirstBatchRow(rows[i], known, t))
  }

  lemma FirstBatchIs(rows: seq<NewAccount>, known: seq<KnownAccount>, t: string, first: seq<NewAccount>)
    requires |first| == |rows|
    requires forall i :: 0 <= i < |rows| ==> Resolvable(rows[i], known) && first[i] == FirstBatchRow(rows[i], known, t)
    ensures first == FirstBatch(rows, known, t)
  {
  }

  /**
   * Batch 1 as uploaded holds, for every new account, the row it contributes
   * without Parent Name, and nothing else; de-duplication never adds rows.
   */
  lemma FirstBatchUploaded(rows: seq<NewAccount>, known: seq<KnownAccount>, t: string)
    requires forall i :: 0 <= i < |rows| ==> Resolvable(rows[i], known)
    ensures |Map(Dedup(FirstBatch(rows, known, t)), Project)| <= |rows|
    ensures forall i :: 0 <= i < |rows| ==> Project(FirstBatchRow(rows[i], known, t)) in Map(Dedup(FirstBatch(rows, known, t)), Project)
    ensures forall x :: x in Map(Dedup(FirstBatch(rows, known, t)), Project) ==>
      exists i :: 0 <= i < |rows| && x == Project(FirstBatchRow(rows[i], known, t))
  {
    var batch := FirstBatch(rows, known, t);
    var deduped := Dedup(batch);
    var first := Map(deduped, Project);
    forall i | 0 <= i < |rows| ensures Project(FirstBatchRow(rows[i], known, t)) in first {
      var x := batch[i];
      assert x in deduped;
      var k :| 0 <= k < |deduped| && deduped[k] == x;
      assert first[k] == Project(x);
    }
    forall x | x in first
      ensures exists i :: 0 <= i < |rows| && x == Project(FirstBatchRow(rows[i], known, t))
    {
      var k :| 0 <= k < |first| && first[k] == x;
      assert deduped[k] in batch;
      var i :| 0 <= i < |rows| && batch[i] == deduped[k];
    }
  }

  /**
   * The first half of uploadAccounts (functions.py:183-229): the first batch
   * as uploaded, every new account's first-batch row de-duplicated while the
   * Parent Name column is still there (so no two uploaded rows come from
   * equal batch rows), then without its Parent Name; and the children
   * deferred to the second batch.
   */
  method FirstUpload(crm: seq<CrmAccount>, admin: seq<AdminAccount>, t: string)
    returns (r: Result<(seq<AccountUpload>, seq<NewAccount>), AccountError>)
    ensures var known := KnownAccounts(crm, t); var rows := NewAccounts(admin, known, t);
      r.Ok? <==> forall i :: 0 <= i < |rows| ==> Resolvable(rows[i], known)
    ensures var known := KnownAccounts(crm, t); var rows := NewAccounts(admin, known, t);
      r.Ok? ==> forall i :: 0 <= i < |rows| ==>
        Resolvable(rows[i], known) && Project(FirstBatchRow(rows[i], known, t)) in r.value.0
    ensures var known := KnownAccounts(crm, t); var rows := NewAccounts(admin, known, t);
      r.Ok? ==> forall x :: x in r.value.0 ==>
        exists i :: 0 <= i < |rows| && Resolvable(rows[i], known) && x == Project(FirstBatchRow(rows[i], known, t))
    ensures var known := KnownAccounts(crm, t); var rows := NewAccounts(admin, known, t);
      r.Ok? ==> |r.value.0| <= |rows| && r.value.1 == Deferred(rows, known)
    ensures var known := KnownAccounts(crm, t); var rows := NewAccounts(admin, known, t);
      r.Ok? ==> r.value.0 == Map(Dedup(FirstBatch(rows, known, t)), Project)
    ensures r.Err? ==> r.error.AmbiguousParent?
  {
    var known := KnownAccounts(crm, t);
    var rows := NewAccounts(admin, known, t);
    var batches := PartitionNewAccounts(rows, known, t);
    if batches.Err? {
      return Err(batches.error);
    }
    FirstBatchIs(rows, known, t, batches.value.first);
    var first := Map(Dedup(batches.value.first), Project);
    FirstBatchUploaded(rows, known, t);
    r := Ok((first, batches.value.second));
  }

  /**
   * The second half of uploadAccounts (functions.py:250-264): the deferred
   * children, in order, each with the Id of the one refreshed account
   * carrying its parent's name, without their Parent Name.
   */
  method SecondUpload(children: seq<NewAccount>, refreshed: seq<CrmAccount>, t: string)
    returns (r: Result<seq<AccountUpload>, AccountError>)
    ensures r.Ok? <==> forall c :: c in children ==> |RefreshedIds(refreshed, t, c.parentName)| == 1
    ensures r.Ok? ==> |r.value| == |children| && forall j :: 0 <= j < |children| ==>
      |RefreshedIds(refreshed, t, children[j].parentName)| == 1
      && r.value[j] == Project(WithParentId(children[j], refreshed, t))
    ensures r.Err? ==> r.error.ParentLookupFailed?
  {
    var batch := new NewAccount[|children|](j requires 0 <= j < |children| => children[j]);
    assert batch[..] == children;
    var err := AttachParentIds(batch, refreshed, t);
    if err.Some? {
      var i :| 0 <= i < |children| && |RefreshedIds(refreshed, t, children[i].parentName)| != 1;
      assert children[i] in children;
      return Err(err.value);
    }
    r := Ok(Map(batch[..], Project));
  }

  /**
   * uploadAccounts without its I/O: `crm` is the Account snapshot, `admin`
   * the admin-tool export, `t` the record type being uploaded, and
   * `refreshed` the Account snapshot the CRM returns once the first batch is
   * in. It fails exactly when a parent lookup does not find one account.
   * A lookup in the admin rows fails before anything is sent; a lookup in the
   * refreshed snapshot fails after the first batch is already in the CRM, and
   * the failure carries that batch.
   */
  method UploadAccounts(crm: seq<CrmAccount>, admin: seq<AdminAccount>, t: string, refreshed: seq<CrmAccount>)
    returns (r: Result<AccountUploads, UploadFailure>)
    ensures var known := KnownAccounts(crm, t); var rows := NewAccounts(admin, known, t);
      r.Ok? <==>
        (forall i :: 0 <= i < |rows| ==> Resolvable(rows[i], known))
        && forall c :: c in Deferred(rows, known) ==> |RefreshedIds(refreshed, t, c.parentName)| == 1
    ensures var known := KnownAccounts(crm, t); var rows := NewAccounts(admin, known, t);
      r.Ok? ==> forall i :: 0 <= i < |rows| ==>
        Resolvable(rows[i], known) && Project(FirstBatchRow(rows[i], known, t)) in r.value.first
    ensures var known := KnownAccounts(crm, t); var rows := NewAccounts(admin, known, t);
      r.Ok? ==> forall x :: x in r.value.first ==>
        exists i :: 0 <= i < |rows| && Resolvable(rows[i], known) && x == Project(FirstBatchRow(rows[i], known, t))
    ensures var known := KnownAccounts(crm, t); var rows := NewAccounts(admin, known, t);
      r.Ok? ==> r.value.first == Map(Dedup(FirstBatch(rows, known, t)), Project)
    ensures var known := KnownAccounts(crm, t); var children := Deferred(NewAccounts(admin, known, t), known);
      r.Ok? ==> |r.value.second| == |children| && forall j :: 0 <= j < |children| ==>
        |RefreshedIds(refreshed, t, children[j].parentName)| == 1
        && r.value.second[j] == Project(WithParentId(children[j], refreshed, t))
    ensures var known := KnownAccounts(crm, t); var rows := NewAccounts(admin, known, t);
      r.Err? ==> (r.error.cause.ParentLookupFailed? <==> forall i :: 0 <= i < |rows| ==> Resolvable(rows[i], known))
    ensures var known := KnownAccounts(crm, t); var rows := NewAccounts(admin, known, t);
      r.Err? && (exists i :: 0 <= i < |rows| && !Resolvable(rows[i], known)) ==> r.error.uploaded == []
    ensures var known := KnownAccounts(crm, t); var rows := NewAccounts(admin, known, t);
      r.Err? && (forall i :: 0 <= i < |rows| ==> Resolvable(rows[i], known)) ==>
        r.error.uploaded == Map(Dedup(FirstBatch(rows, known, t)), Project)
  {
    var first := FirstUpload(crm, admin, t);
    if first.Err? {
      return Err(UploadFailure([], first.error));
    }
    var second := SecondUpload(first.value.1, refreshed, t);
    if second.Err? {
      return Err(UploadFailure(first.value.0, second.error));
    }
    r := Ok(AccountUploads(first.value.0, second.value));
  }

  /**
   * An account that is its own parent and has any non-null field, together
   * with a child of it whose parent the CRM does not know, puts two distinct
   * rows named after the parent into the de-duplicated first batch: the
   * account itself and the stub created for the child's parent.
   */
  lemma SelfParentedParentUploadedTwice(rows: seq<NewAccount>, known: seq<KnownAccount>, t: string,
                                        first: seq<NewAccount>, i: nat, j: nat)
    requires forall k :: 0 <= k < |rows| ==> Resolvable(rows[k], known)
    requires |first| == |rows| && forall k :: 0 <= k < |rows| ==> first[k] == FirstBatchRow(rows[k], known, t)
    requires i < |rows| && j < |rows|
    requires rows[i].name == rows[i].parentName == rows[j].parentName != rows[j].name
    requires forall k :: k in known ==> k.name != rows[j].parentName
    requires rows[i] != ParentStub(rows[i].name, t)
    ensures exists a, b :: a in Dedup(first) && b in Dedup(first) && a != b && a.name == b.name == rows[i].name
  {
    PlaceSpec(rows[j], known);
    assert first[i] == rows[i] && first[i] in first;
    assert first[j] == ParentStub(rows[i].name, t) && first[j] in first;
  }

  /** Some new account is its own parent and carries the name `name`. */
  predicate SelfParentedIn(rows: seq<NewAccount>, name: string) {
    exists r :: r in rows && r.name == r.parentName == name
  }

  /**
   * Whether the corrected loop adds no stub for `row`: its parent is created
   * by the first batch anyway, as a new account that is its own parent.
   */
  predicate ParentAlreadyNew(row: NewAccount, rows: seq<NewAccount>, known: seq<KnownAccount>) {
    Place(row, known) == NewParent && SelfParentedIn(rows, row.parentName)
  }

  /**
   * The first batch as the loop evidently means it: like `FirstBatch`, but
   * a child whose parent is a new account that is its own parent adds no
   * stub, since that account is uploaded in the first batch itself.
   */
  function FixedFirstBatch(rows: seq<NewAccount>, all: seq<NewAccount>, known: seq<KnownAccount>, t: string): (b: seq<NewAccount>)
    requires forall i :: 0 <= i < |rows| ==> Resolvable(rows[i], known)
    ensures |b| <= |rows|
    decreases |rows|
  {
    if rows == [] then []
    else
      (if ParentAlreadyNew(rows[0], all, known) then [] else [FirstBatchRow(rows[0], known, t)])
        + FixedFirstBatch(rows[1..], all, known, t)
  }

  /** The corrected first batch holds the rows of the accounts that add one, and nothing else. */
  lemma {:induction false} FixedFirstBatchMembers(rows: seq<NewAccount>, all: seq<NewAccount>, known: seq<KnownAccount>, t: string, x: NewAccount)
    requires forall i :: 0 <= i < |rows| ==> Resolvable(rows[i], known)
    ensures x in FixedFirstBatch(rows, all, known, t) <==>
      exists i :: 0 <= i < |rows| && !ParentAlreadyNew(rows[i], all, known) && x == FirstBatchRow(rows[i], known, t)
    decreases |rows|
  {
    if rows != [] {
      FixedFirstBatchMembers(rows[1..], all, known, t, x);
      if x in FixedFirstBatch(rows[1..], all, known, t) {
        var i :| 0 <= i < |rows[1..]| && !ParentAlreadyNew(rows[1..][i], all, known) && x == FirstBatchRow(rows[1..][i], known, t);
        assert rows[1..][i] == rows[i + 1];
      }
      if exists i :: 0 <= i < |rows| && !ParentAlreadyNew(rows[i], all, known) && x == FirstBatchRow(rows[i], known, t) {
        var i :| 0 <= i < |rows| && !ParentAlreadyNew(rows[i], all, known) && x == FirstBatchRow(rows[i], known, t);
        if i > 0 {
          assert rows[i] == rows[1..][i - 1];
        }
      }
    }
  }

  /**
   * The evidently intended first batch, for new accounts with unique names
   * whose new parents are their own parents (two levels, as the loop
   * assumes): after `drop_duplicates` it holds one row per name; every new
   * account that does not wait for a parent is in it as its own row; and
   * for every deferred child exactly one of its rows carries the child's
   * parent name while no known account does, so the later parent lookup
   * finds one account.
   */
  lemma {:induction false} FixedFirstBatchSpec(rows: seq<NewAccount>, known: seq<KnownAccount>, t: string)
    requires forall i :: 0 <= i < |rows| ==> Resolvable(rows[i], known)
    requires forall i, j :: 0 <= i < j < |rows| ==> rows[i].name != rows[j].name
    requires forall r, p :: r in rows && p in rows && r.parentName == p.name ==> p.name == p.parentName
    ensures var d := Dedup(FixedFirstBatch(rows, rows, known, t));
      forall a, b :: a in d && b in d && a.name == b.name ==> a == b
    ensures var d := Dedup(FixedFirstBatch(rows, rows, known, t));
      forall i :: 0 <= i < |rows| && Place(rows[i], known) != NewParent ==> FirstBatchRow(rows[i], known, t) in d
    ensures var d := Dedup(FixedFirstBatch(rows, rows, known, t));
      forall c :: c in Deferred(rows, known) ==>
        (exists a :: a in d && a.name == c.parentName) && forall k :: k in known ==> k.name != c.parentName
  {
    FixedOneRowPerName(rows, known, t);
    FixedKeepsAccounts(rows, known, t);
    FixedParentsPresent(rows, known, t);
  }

  lemma FixedOneRowPerName(rows: seq<NewAccount>, known: seq<KnownAccount>, t: string)
    requires forall i :: 0 <= i < |rows| ==> Resolvable(rows[i], known)
    requires forall i, j :: 0 <= i < j < |rows| ==> rows[i].name != rows[j].name
    requires forall r, p :: r in rows && p in rows && r.parentName == p.name ==> p.name == p.parentName
    ensures var b := FixedFirstBatch(rows, rows, known, t);
      forall a, a' :: a in b && a' in b && a.name == a'.name ==> a == a'
  {
    var b := FixedFirstBatch(rows, rows, known, t);
    forall a, a' | a in b && a' in b && a.name == a'.name ensures a == a' {
      FixedFirstBatchMembers(rows, rows, known, t, a);
      FixedFirstBatchMembers(rows, rows, known, t, a');
      var i :| 0 <= i < |rows| && !ParentAlreadyNew(rows[i], rows, known) && a == FirstBatchRow(rows[i], known, t);
      var j :| 0 <= j < |rows| && !ParentAlreadyNew(rows[j], rows, known) && a' == FirstBatchRow(rows[j], known, t);
      OneRowPerName(rows, known, t, i, j);
    }
  }

  lemma FixedKeepsAccounts(rows: seq<NewAccount>, known: seq<KnownAccount>, t: string)
    requires forall i :: 0 <= i < |rows| ==> Resolvable(rows[i], known)
    ensures forall i :: 0 <= i < |rows| && Place(rows[i], known) != NewParent ==>
      FirstBatchRow(rows[i], known, t) in FixedFirstBatch(rows, rows, known, t)
  {
    forall i | 0 <= i < |rows| && Place(rows[i], known) != NewParent
      ensures FirstBatchRow(rows[i], known, t) in FixedFirstBatch(rows, rows, known, t)
    {
      FixedFirstBatchMembers(rows, rows, known, t, FirstBatchRow(rows[i], known, t));
    }
  }

  lemma FixedParentsPresent(rows: seq<NewAccount>, known: seq<KnownAccount>, t: string)
    requires forall i :: 0 <= i < |rows| ==> Resolvable(rows[i], known)
    ensures forall c :: c in Deferred(rows, known) ==>
      (exists a :: a in FixedFirstBatch(rows, rows, known, t) && a.name == c.parentName)
      && forall k :: k in known ==> k.name != c.parentName
  {
    var b := FixedFirstBatch(rows, rows, known, t);
    DeferredIsFilter(rows, known);
    forall c | c in Deferred(rows, known)
      ensures (exists a :: a in b && a.name == c.parentName) && forall k :: k in known ==> k.name != c.parentName
    {
      PlaceSpec(c, known);
      var i :| 0 <= i < |rows| && rows[i] == c;
      if SelfParentedIn(rows, c.parentName) {
        var p :| p in rows && p.name == p.parentName == c.parentName;
        var j :| 0 <= j < |rows| && rows[j] == p;
        PlaceSpec(p, known);
        FixedFirstBatchMembers(rows, rows, known, t, FirstBatchRow(rows[j], known, t));
      } else {
        FixedFirstBatchMembers(rows, rows, known, t, FirstBatchRow(rows[i], known, t));
      }
    }
  }

  /** Two rows of the corrected first batch with the same name are the same row. */
  lemma OneRowPerName(rows: seq<NewAccount>, known: seq<KnownAccount>, t: string, i: nat, j: nat)
    requires forall k :: 0 <= k < |rows| ==> Resolvable(rows[k], known)
    requires forall k, l :: 0 <= k < l < |rows| ==> rows[k].name != rows[l].name
    requires forall r, p :: r in rows && p in rows && r.parentName == p.name ==> p.name == p.parentName
    requires i < |rows| && j < |rows|
    requires !ParentAlreadyNew(rows[i], rows, known) && !ParentAlreadyNew(rows[j], rows, known)
    requires FirstBatchRow(rows[i], known, t).name == FirstBatchRow(rows[j], known, t).name
    ensures FirstBatchRow(rows[i], known, t) == FirstBatchRow(rows[j], known, t)
  {
    var pi, pj := Place(rows[i], known), Place(rows[j], known);
    if pi == NewParent && pj == NewParent {
    } else if pi == NewParent {
      StubNameIsFresh(rows, known, i);
      assert false;
    } else if pj == NewParent {
      StubNameIsFresh(rows, known, j);
      assert false;
    } else {
      assert rows[i].name == rows[j].name;
    }
  }

  /** The name of a stub the corrected loop adds is the name of no new account. */
  lemma StubNameIsFresh(rows: seq<NewAccount>, known: seq<KnownAccount>, i: nat)
    requires forall r, p :: r in rows && p in rows && r.parentName == p.name ==> p.name == p.parentName
    requires i < |rows|
    requires Place(rows[i], known) == NewParent && !ParentAlreadyNew(rows[i], rows, known)
    ensures forall p :: p in rows ==> p.name != rows[i].parentName
  {
    assert rows[i] in rows;
  }

}
