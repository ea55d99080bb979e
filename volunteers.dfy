/**
 * The volunteer reconciler (uploadVolunteers): the admin-tool volunteers the
 * CRM has no volunteer contact for, with the full name split into first and
 * last name and every contact attached to the volunteers account.
 */
module Volunteers {
  import opened Wrappers
  import opened Tables
  import opened Names

  /** One row of the CRM's Contact query (Id, Name, AccountId). */
  datatype CrmContact = CrmContact(id: string, name: Cell, accountId: Cell)

  /** A CRM volunteer contact, with its name normalised. */
  datatype KnownVolunteer = KnownVolunteer(id: string, name: string)

  /** One row of the admin-tool export: the columns uploadVolunteers keeps. */
  datatype AdminVolunteer = AdminVolunteer(
    name: Cell, email: Cell, phone: Cell, line1: Cell, city: Cell, state: Cell, zip: Cell)

  /**
   * A new volunteer while its name is being split: the normalised name, the
   * mailing columns, the fixed AccountId, and FirstName and LastName, which
   * start out as copies of the name.
   */
  datatype VolunteerRow = VolunteerRow(
    name: string, email: Cell, phone: Cell, street: Cell, city: Cell, state: Cell,
    postalCode: Cell, accountId: string, firstName: string, lastName: string)

  /** The Contact row sent to the CRM. */
  datatype VolunteerUpload = VolunteerUpload(
    firstName: string, lastName: string, email: Cell, phone: Cell, street: Cell,
    city: Cell, state: Cell, postalCode: Cell, accountId: string)

  /** `split()[-1]` on a name with no token: the IndexError raised at that row. */
  datatype VolunteerError = EmptyName(row: nat)

  function KnownVolunteerOf(c: CrmContact): KnownVolunteer {
    KnownVolunteer(c.id, NormalizeCell(c.name))
  }

  /** The contacts of the volunteers account, projected to Id and Name, names normalised. */
  function KnownVolunteers(contacts: seq<CrmContact>): (known: seq<KnownVolunteer>)
    ensures |known| <= |contacts|
    ensures forall c :: c in contacts && c.accountId == Some(VolunteersAccountId) ==> KnownVolunteerOf(c) in known
    ensures forall k :: k in known ==>
      exists c :: c in contacts && c.accountId == Some(VolunteersAccountId) && k == KnownVolunteerOf(c)
  {
    if contacts == [] then []
    else
      assert forall c :: c in contacts ==> c == contacts[0] || c in contacts[1..];
      (if contacts[0].accountId == Some(VolunteersAccountId) then [KnownVolunteerOf(contacts[0])] else [])
        + KnownVolunteers(contacts[1..])
  }

  function AdminVolunteerName(a: AdminVolunteer): string {
    NormalizeCell(a.name)
  }

  function KnownVolunteerName(k: KnownVolunteer): string {
    k.name
  }

  /** An admin volunteer as a new contact row: Line1 as the street, the fixed AccountId, names not split yet. */
  function ToVolunteerRow(a: AdminVolunteer): VolunteerRow {
    var name := NormalizeCell(a.name);
    VolunteerRow(name, a.email, a.phone, a.line1, a.city, a.state, a.zip, VolunteersAccountId, name, name)
  }

  /** The merge on Name, the Id-is-null filter and the new columns (functions.py:362-372). */
  function NewVolunteers(admin: seq<AdminVolunteer>, known: seq<KnownVolunteer>): seq<VolunteerRow> {
    Map(Unmatched(LeftJoin(admin, known, AdminVolunteerName, KnownVolunteerName)), ToVolunteerRow)
  }

  /** Every new volunteer row carries a normalised name and the volunteers account's Id. */
  lemma NewVolunteerRowsNormalised(admin: seq<AdminVolunteer>, known: seq<KnownVolunteer>)
    ensures forall v :: v in NewVolunteers(admin, known) ==> Canonical(v.name) && v.accountId == VolunteersAccountId
  {
    var u := Unmatched(LeftJoin(admin, known, AdminVolunteerName, KnownVolunteerName));
    forall v | v in NewVolunteers(admin, known) ensures Canonical(v.name) {
      var i :| 0 <= i < |u| && v == ToVolunteerRow(u[i]);
      NormalizeCanonical(CellText(u[i].name));
    }
  }

  /** The admin volunteers whose normalised name no volunteer contact has. */
  function UnknownVolunteer(contacts: seq<CrmContact>): AdminVolunteer -> bool {
    (a: AdminVolunteer) => forall c :: c in contacts && c.accountId == Some(VolunteersAccountId) ==>
      NormalizeCell(c.name) != NormalizeCell(a.name)
  }

  /**
   * The new volunteers are exactly the admin rows, in their original order,
   * whose normalised name equals the normalised name of no contact of the
   * volunteers account.
   */
  lemma NewVolunteersAreUnknown(admin: seq<AdminVolunteer>, contacts: seq<CrmContact>)
    ensures NewVolunteers(admin, KnownVolunteers(contacts)) == Map(Filter(admin, UnknownVolunteer(contacts)), ToVolunteerRow)
  {
    var known := KnownVolunteers(contacts);
    UnmatchedIsAntiJoin(admin, known, AdminVolunteerName, KnownVolunteerName);
    forall a | a in admin
      ensures UnknownVolunteer(contacts)(a) <==> forall k :: k in known ==> KnownVolunteerName(k) != AdminVolunteerName(a)
    {
      if UnknownVolunteer(contacts)(a) {
        forall k | k in known ensures KnownVolunteerName(k) != AdminVolunteerName(a) {
          var c :| c in contacts && c.accountId == Some(VolunteersAccountId) && k == KnownVolunteerOf(c);
        }
      } else {
        var c :| c in contacts && c.accountId == Some(VolunteersAccountId) && NormalizeCell(c.name) == NormalizeCell(a.name);
        assert KnownVolunteerOf(c) in known;
      }
    }
    WithoutMatchIsFilter(admin, known, AdminVolunteerName, KnownVolunteerName, UnknownVolunteer(contacts));
  }

  /**
   * FirstName and LastName of one full name: `' '.join(name.split()[0:-1])`
   * and `name.split()[-1]`; None when the name has no token.
   */
  function NameParts(name: string): Option<(string, string)> {
    var ws := Split(name);
    if ws == [] then None else Some((Join(ws[..|ws| - 1]), ws[|ws| - 1]))
  }

  /**
   * Splitting a name loses no token: the last name is the last token, the
   * first name holds the tokens before it, and only a name without tokens
   * fails.
   */
  lemma NamePartsTokens(name: string)
    ensures NameParts(name).None? <==> Split(name) == []
    ensures NameParts(name).Some? ==>
      IsWord(NameParts(name).value.1) && Split(NameParts(name).value.0) + [NameParts(name).value.1] == Split(name)
  {
    var ws := Split(name);
    if ws != [] {
      var init := ws[..|ws| - 1];
      assert ws[|ws| - 1] in ws;
      assert forall w :: w in init ==> w in ws;
      SplitJoin(init);
      assert init + [ws[|ws| - 1]] == ws;
    }
  }

  /**
   * For a normalised name the split is undone by joining: the name is the
   * last name alone when the first name is empty, and otherwise the first
   * name, a space and the last name; the only name that fails is "".
   */
  lemma NamePartsRoundTrip(name: string)
    requires Canonical(name)
    ensures NameParts(name).None? <==> name == ""
    ensures NameParts(name).Some? ==>
      var (first, last) := NameParts(name).value;
      Canonical(first) && name == if first == "" then last else first + " " + last
  {
    CanonicalFixpoint(name);
    var ws := Split(name);
    if ws != [] {
      var init := ws[..|ws| - 1];
      assert forall w :: w in init ==> w in ws;
      JoinCanonical(init);
      if |ws| == 1 {
        assert init == [];
      } else {
        JoinLast(ws);
      }
    }
  }

  /** `after` is `before` with its first and last name filled in from its name. */
  predicate Named(before: VolunteerRow, after: VolunteerRow) {
    NameParts(before.name).Some?
    && after == before.(firstName := NameParts(before.name).value.0, lastName := NameParts(before.name).value.1)
  }

  /**
   * The loop that writes FirstName and LastName row by row
   * (functions.py:373-375). FirstName is written before LastName is read, so
   * the row that fails keeps an empty FirstName; rows after it are untouched.
   */
  method SplitNames(frame: array<VolunteerRow>) returns (err: Option<VolunteerError>)
    modifies frame
    ensures err.None? <==> forall i :: 0 <= i < frame.Length ==> NameParts(old(frame[i]).name).Some?
    ensures err.None? ==> forall i :: 0 <= i < frame.Length ==> Named(old(frame[i]), frame[i])
    ensures err.Some? ==> exists i :: (0 <= i < frame.Length
      && NameParts(old(frame[i]).name).None? && err.value == EmptyName(i)
      && frame[i] == old(frame[i]).(firstName := "")
      && (forall j :: 0 <= j < i ==> Named(old(frame[j]), frame[j]))
      && (forall j :: i < j < frame.Length ==> frame[j] == old(frame[j])))
  {
    var i := 0;
    while i < frame.Length
      invariant 0 <= i <= frame.Length
      invariant forall j :: 0 <= j < i ==> Named(old(frame[j]), frame[j])
      invariant forall j :: i <= j < frame.Length ==> frame[j] == old(frame[j])
    {
      var ws := Split(frame[i].name);
      frame[i] := frame[i].(firstName := Join(if ws == [] then [] else ws[..|ws| - 1]));
      if ws == [] {
        return Some(EmptyName(i));
      }
      frame[i] := frame[i].(lastName := ws[|ws| - 1]);
      i := i + 1;
    }
    err := None;
  }

  /** The columns uploaded, in the order uploadVolunteers selects them. */
  function ToUpload(v: VolunteerRow): VolunteerUpload {
    VolunteerUpload(v.firstName, v.lastName, v.email, v.phone, v.street, v.city, v.state, v.postalCode, v.accountId)
  }

  /**
   * The uploaded first and last name hold the tokens of the full name, the
   * last name being the last token, and give the full name back when joined.
   */
  predicate UploadedName(name: string, u: VolunteerUpload) {
    && name != ""
    && Split(u.firstName) + [u.lastName] == Split(name)
    && name == if u.firstName == "" then u.lastName else u.firstName + " " + u.lastName
  }

  /** The uploaded contact keeps the row's Email, Phone, mailing address and AccountId. */
  predicate KeepsContactColumns(v: VolunteerRow, u: VolunteerUpload) {
    && u.email == v.email && u.phone == v.phone && u.street == v.street
    && u.city == v.city && u.state == v.state && u.postalCode == v.postalCode
    && u.accountId == v.accountId
  }

  lemma NamedUpload(v: VolunteerRow, after: VolunteerRow)
    requires Canonical(v.name) && Named(v, after)
    ensures UploadedName(v.name, ToUpload(after))
  {
    NamePartsTokens(v.name);
    NamePartsRoundTrip(v.name);
  }

  /**
   * The second half of uploadVolunteers (functions.py:373-377) on rows whose
   * names are normalised: it fails exactly when a name is empty; otherwise
   * every row is uploaded, in order, with its name split.
   */
  method SplitAndProject(rows: seq<VolunteerRow>) returns (r: Result<seq<VolunteerUpload>, VolunteerError>)
    requires forall v :: v in rows ==> Canonical(v.name)
    ensures r.Ok? <==> forall i :: 0 <= i < |rows| ==> rows[i].name != ""
    ensures r.Ok? ==> |r.value| == |rows| && forall i :: 0 <= i < |rows| ==>
      KeepsContactColumns(rows[i], r.value[i]) && UploadedName(rows[i].name, r.value[i])
  {
    var frame := new VolunteerRow[|rows|](j requires 0 <= j < |rows| => rows[j]);
    var err := SplitNames(frame);
    if err.Some? {
      assert exists i :: 0 <= i < |rows| && rows[i].name == "" by {
        var i :| 0 <= i < |rows| && NameParts(rows[i].name).None?;
        assert rows[i] in rows;
        NamePartsRoundTrip(rows[i].name);
      }
      return Err(err.value);
    }
    forall i | 0 <= i < |rows|
      ensures UploadedName(rows[i].name, ToUpload(frame[i]))
    {
      assert rows[i] in rows;
      NamedUpload(rows[i], frame[i]);
    }
    r := Ok(Map(frame[..], ToUpload));
  }

  /**
   * uploadVolunteers without its I/O: `contacts` is the CRM's Contact
   * snapshot and `admin` the admin-tool export. It fails exactly when a new
   * volunteer's name has no token; otherwise every new volunteer is uploaded,
   * in order, attached to the volunteers account, its last name the last
   * token of its normalised name and its first name the tokens before it.
   */
  method UploadVolunteers(contacts: seq<CrmContact>, admin: seq<AdminVolunteer>)
    returns (r: Result<seq<VolunteerUpload>, VolunteerError>)
    ensures var rows := NewVolunteers(admin, KnownVolunteers(contacts));
      r.Ok? <==> forall i :: 0 <= i < |rows| ==> rows[i].name != ""
    ensures var rows := NewVolunteers(admin, KnownVolunteers(contacts));
      r.Ok? ==> |r.value| == |rows| && forall i :: 0 <= i < |rows| ==>
        r.value[i].accountId == VolunteersAccountId && KeepsContactColumns(rows[i], r.value[i])
        && UploadedName(rows[i].name, r.value[i])
  {
    var rows := NewVolunteers(admin, KnownVolunteers(contacts));
    NewVolunteerRowsNormalised(admin, KnownVolunteers(contacts));
    r := SplitAndProject(rows);
    if r.Ok? {
      forall i | 0 <= i < |rows| ensures r.value[i].accountId == VolunteersAccountId {
        assert rows[i] in rows;
      }
    }
  }
}
