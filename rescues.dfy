/**
 * The rescue reconciler: which admin-tool food rescues the CRM does not hold
 * yet (uploadNewFoodRescues), and how each of them is linked by name to its
 * donor, its nonprofit partner and its volunteer before upload
 * (uploadFoodRescues).
 */
module Rescues {
  import opened Wrappers
  import opened Tables
  import opened Names
  import Accounts
  import Volunteers

  /** One row of the admin tool's rescue report. */
  datatype AdminRescue = AdminRescue(
    rescueId: Cell, pickupStart: Cell, state: Cell, description: Cell, foodType: Cell,
    weight: Cell, detailUrl: Cell, donorName: Cell, donorLocation: Cell,
    recipientName: Cell, recipientLocation: Cell, volunteerName: Cell)

  /** One row of the CRM's Food_Rescue__c query (Id, Rescue_Id__c, Food_Type__c, Weight__c). */
  datatype CrmRescue = CrmRescue(id: string, rescueId: Cell, foodType: Cell, weight: Cell)

  /** The composite key a rescue is recognised by: Rescue ID, Food Type and Weight. */
  type RescueKey = (Cell, Cell, Cell)

  function AdminKey(a: AdminRescue): RescueKey {
    (a.rescueId, a.foodType, a.weight)
  }

  function CrmKey(c: CrmRescue): RescueKey {
    (c.rescueId, c.foodType, c.weight)
  }

  /**
   * The rescues uploadNewFoodRescues passes on (functions.py:388-394): the CRM
   * rows de-duplicated, merged on the key triple, and the admin rows that
   * found no partner kept.
   */
  function NewFoodRescues(admin: seq<AdminRescue>, crm: seq<CrmRescue>): seq<AdminRescue> {
    Unmatched(LeftJoin(admin, Dedup(crm), AdminKey, CrmKey))
  }

  /** No CRM rescue carries the admin rescue's key triple. */
  function NotInCrm(crm: seq<CrmRescue>): AdminRescue -> bool {
    (a: AdminRescue) => forall c :: c in crm ==> CrmKey(c) != AdminKey(a)
  }

  /**
   * The new rescues are exactly the admin rows, in their original order, whose
   * key triple no CRM rescue carries.
   */
  lemma NewFoodRescuesSpec(admin: seq<AdminRescue>, crm: seq<CrmRescue>)
    ensures NewFoodRescues(admin, crm) == Filter(admin, NotInCrm(crm))
    ensures forall a :: a in NewFoodRescues(admin, crm) <==>
      a in admin && forall c :: c in crm ==> CrmKey(c) != AdminKey(a)
  {
    UnmatchedIsAntiJoin(admin, Dedup(crm), AdminKey, CrmKey);
    WithoutMatchIsFilter(admin, Dedup(crm), AdminKey, CrmKey, NotInCrm(crm));
  }

  /** De-duplicating the CRM rows first changes nothing about which rescues are new. */
  lemma DedupDoesNotMatter(admin: seq<AdminRescue>, crm: seq<CrmRescue>)
    ensures NewFoodRescues(admin, crm) == Unmatched(LeftJoin(admin, crm, AdminKey, CrmKey))
  {
    NewFoodRescuesSpec(admin, crm);
    UnmatchedIsAntiJoin(admin, crm, AdminKey, CrmKey);
    WithoutMatchIsFilter(admin, crm, AdminKey, CrmKey, NotInCrm(crm));
  }

  /** Two admin rows with the same key triple are both new or both already in the CRM. */
  lemma SameKeySameFate(admin: seq<AdminRescue>, crm: seq<CrmRescue>, a: AdminRescue, b: AdminRescue)
    requires a in admin && b in admin && AdminKey(a) == AdminKey(b)
    ensures a in NewFoodRescues(admin, crm) <==> b in NewFoodRescues(admin, crm)
  {
    NewFoodRescuesSpec(admin, crm);
  }

  /** Only completed and canceled rescues are uploaded (functions.py:277). */
  predicate Closed(a: AdminRescue) {
    a.state == Some("canceled") || a.state == Some("completed")
  }

  /** A closed rescue while its links are looked up: the admin row and the Ids found so far. */
  datatype Linking = Linking(rescue: AdminRescue, donorId: Cell, agencyId: Cell, volunteerId: Cell)

  /** The Food_Rescue__c row sent to the CRM: the rescue's own columns and its three links. */
  datatype RescueUpload = RescueUpload(
    rescueId: Cell, pickup: Cell, state: Cell, description: Cell, foodType: Cell,
    weight: Cell, detailUrl: Cell, donorId: Cell, agencyId: Cell, volunteerId: Cell)

  function Unlinked(a: AdminRescue): Linking {
    Linking(a, None, None, None)
  }

  /**
   * The three join keys, each cleaned as cleanupNameWhitespace cleans it; the
   * volunteer name goes through `astype(str)` first, which like the cleaner
   * itself turns a null cell into "nan".
   */
  function DonorKey(l: Linking): string {
    NormalizeCell(l.rescue.donorLocation)
  }

  function RecipientKey(l: Linking): string {
    NormalizeCell(l.rescue.recipientLocation)
  }

  function VolunteerKey(l: Linking): string {
    NormalizeCell(l.rescue.volunteerName)
  }

  /** The Id column a merge adds: the partner's Id, or null when there is none. */
  function AccountIdOf(m: Option<Accounts.KnownAccount>): Cell {
    if m.Some? then Some(m.value.id) else None
  }

  function ContactIdOf(m: Option<Volunteers.KnownVolunteer>): Cell {
    if m.Some? then Some(m.value.id) else None
  }

  function WithDonor(p: (Linking, Option<Accounts.KnownAccount>)): Linking {
    p.0.(donorId := AccountIdOf(p.1))
  }

  function WithAgency(p: (Linking, Option<Accounts.KnownAccount>)): Linking {
    p.0.(agencyId := AccountIdOf(p.1))
  }

  function WithVolunteer(p: (Linking, Option<Volunteers.KnownVolunteer>)): Linking {
    p.0.(volunteerId := ContactIdOf(p.1))
  }

  /** The rescue's own columns followed by the three Id columns (functions.py:313-314). */
  function Uploaded(a: AdminRescue, donorId: Cell, agencyId: Cell, volunteerId: Cell): RescueUpload {
    RescueUpload(a.rescueId, a.pickupStart, a.state, a.description, a.foodType, a.weight,
      a.detailUrl, donorId, agencyId, volunteerId)
  }

  function ToUpload(l: Linking): RescueUpload {
    Uploaded(l.rescue, l.donorId, l.agencyId, l.volunteerId)
  }

  /** The CRM lookups: donor accounts, partner accounts and volunteer contacts, names normalised. */
  function Donors(accounts: seq<Accounts.CrmAccount>): seq<Accounts.KnownAccount> {
    Accounts.KnownAccounts(accounts, DonorTypeId)
  }

  function Partners(accounts: seq<Accounts.CrmAccount>): seq<Accounts.KnownAccount> {
    Accounts.KnownAccounts(accounts, PartnerTypeId)
  }

  function HeroContacts(contacts: seq<Volunteers.CrmContact>): seq<Volunteers.KnownVolunteer> {
    Volunteers.KnownVolunteers(contacts)
  }

  /** The three merges in turn: donor, then partner, then volunteer (functions.py:308-310). */
  function LinkDonors(ls: seq<Linking>, accounts: seq<Accounts.CrmAccount>): seq<Linking> {
    Map(LeftJoin(ls, Donors(accounts), DonorKey, Accounts.KnownName), WithDonor)
  }

  function LinkPartners(ls: seq<Linking>, accounts: seq<Accounts.CrmAccount>): seq<Linking> {
    Map(LeftJoin(ls, Partners(accounts), RecipientKey, Accounts.KnownName), WithAgency)
  }

  function LinkVolunteers(ls: seq<Linking>, contacts: seq<Volunteers.CrmContact>): seq<Linking> {
    Map(LeftJoin(ls, HeroContacts(contacts), VolunteerKey, Volunteers.KnownVolunteerName), WithVolunteer)
  }

  /**
   * uploadFoodRescues without its I/O (functions.py:276-314): the closed
   * rescues, linked to the CRM's donors, partners and volunteers by name.
   */
  function LinkRescues(rescues: seq<AdminRescue>, accounts: seq<Accounts.CrmAccount>, contacts: seq<Volunteers.CrmContact>)
    : seq<RescueUpload>
  {
    var closed := Map(Filter(rescues, Closed), Unlinked);
    Map(LinkVolunteers(LinkPartners(LinkDonors(closed, accounts), accounts), contacts), ToUpload)
  }

  /** Every row being linked carries one of the rescues `src`. */
  predicate RescuesFrom(ls: seq<Linking>, src: seq<AdminRescue>) {
    forall l :: l in ls ==> l.rescue in src
  }

  /** The merge steps keep every row's rescue. */
  lemma LinkDonorsKeepsRescues(ls: seq<Linking>, accounts: seq<Accounts.CrmAccount>, src: seq<AdminRescue>)
    requires RescuesFrom(ls, src)
    ensures RescuesFrom(LinkDonors(ls, accounts), src)
  {
    var j := LeftJoin(ls, Donors(accounts), DonorKey, Accounts.KnownName);
    LeftJoinLeftRows(ls, Donors(accounts), DonorKey, Accounts.KnownName);
    forall l | l in LinkDonors(ls, accounts) ensures l.rescue in src {
      var i :| 0 <= i < |j| && l == WithDonor(j[i]);
      assert j[i] in j;
    }
  }

  lemma LinkPartnersKeepsRescues(ls: seq<Linking>, accounts: seq<Accounts.CrmAccount>, src: seq<AdminRescue>)
    requires RescuesFrom(ls, src)
    ensures RescuesFrom(LinkPartners(ls, accounts), src)
  {
    var j := LeftJoin(ls, Partners(accounts), RecipientKey, Accounts.KnownName);
    LeftJoinLeftRows(ls, Partners(accounts), RecipientKey, Accounts.KnownName);
    forall l | l in LinkPartners(ls, accounts) ensures l.rescue in src {
      var i :| 0 <= i < |j| && l == WithAgency(j[i]);
      assert j[i] in j;
    }
  }

  lemma LinkVolunteersKeepsRescues(ls: seq<Linking>, contacts: seq<Volunteers.CrmContact>, src: seq<AdminRescue>)
    requires RescuesFrom(ls, src)
    ensures RescuesFrom(LinkVolunteers(ls, contacts), src)
  {
    var j := LeftJoin(ls, HeroContacts(contacts), VolunteerKey, Volunteers.KnownVolunteerName);
    LeftJoinLeftRows(ls, HeroContacts(contacts), VolunteerKey, Volunteers.KnownVolunteerName);
    forall l | l in LinkVolunteers(ls, contacts) ensures l.rescue in src {
      var i :| 0 <= i < |j| && l == WithVolunteer(j[i]);
      assert j[i] in j;
    }
  }

  /**
   * Every uploaded rescue is a completed or canceled admin rescue, its own
   * columns carried over unchanged.
   */
  lemma LinkedRescuesAreClosed(rescues: seq<AdminRescue>, accounts: seq<Accounts.CrmAccount>, contacts: seq<Volunteers.CrmContact>)
    ensures forall u :: u in LinkRescues(rescues, accounts, contacts) ==>
      exists a :: a in rescues && Closed(a) && u == Uploaded(a, u.donorId, u.agencyId, u.volunteerId)
  {
    var src := Filter(rescues, Closed);
    var closed := Map(src, Unlinked);
    assert RescuesFrom(closed, src) by {
      forall l | l in closed ensures l.rescue in src {
        var i :| 0 <= i < |src| && l == Unlinked(src[i]);
        assert src[i] in src;
      }
    }
    var l1 := LinkDonors(closed, accounts);
    LinkDonorsKeepsRescues(closed, accounts, src);
    var l2 := LinkPartners(l1, accounts);
    LinkPartnersKeepsRescues(l1, accounts, src);
    var l3 := LinkVolunteers(l2, contacts);
    LinkVolunteersKeepsRescues(l2, contacts, src);
    forall u | u in LinkRescues(rescues, accounts, contacts)
      ensures exists a :: a in rescues && Closed(a) && u == Uploaded(a, u.donorId, u.agencyId, u.volunteerId)
    {
      var i :| 0 <= i < |l3| && u == ToUpload(l3[i]);
      assert l3[i] in l3;
      assert l3[i].rescue in src;
    }
  }

  /** The Id a lookup resolves to when names are unique: the one account of that name, or null. */
  function DonorIdFor(a: AdminRescue, accounts: seq<Accounts.CrmAccount>): Cell {
    AccountIdOf(FirstOf(Lookup(NormalizeCell(a.donorLocation), Donors(accounts), Accounts.KnownName)))
  }

  function AgencyIdFor(a: AdminRescue, accounts: seq<Accounts.CrmAccount>): Cell {
    AccountIdOf(FirstOf(Lookup(NormalizeCell(a.recipientLocation), Partners(accounts), Accounts.KnownName)))
  }

  function VolunteerIdFor(a: AdminRescue, contacts: seq<Volunteers.CrmContact>): Cell {
    ContactIdOf(FirstOf(Lookup(NormalizeCell(a.volunteerName), HeroContacts(contacts), Volunteers.KnownVolunteerName)))
  }

  /** One merge step against a lookup with unique names keeps the rows one for one. */
  lemma LinkDonorsUnique(ls: seq<Linking>, accounts: seq<Accounts.CrmAccount>)
    requires KeysUnique(Donors(accounts), Accounts.KnownName)
    ensures |LinkDonors(ls, accounts)| == |ls|
    ensures forall i :: 0 <= i < |ls| ==>
      LinkDonors(ls, accounts)[i] == ls[i].(donorId := DonorIdFor(ls[i].rescue, accounts))
  {
    forall i | 0 <= i < |ls| ensures |Lookup(DonorKey(ls[i]), Donors(accounts), Accounts.KnownName)| <= 1 {
      LookupOfUniqueKeys(DonorKey(ls[i]), Donors(accounts), Accounts.KnownName);
    }
    LeftJoinAtMostOne(ls, Donors(accounts), DonorKey, Accounts.KnownName);
  }

  lemma LinkPartnersUnique(ls: seq<Linking>, accounts: seq<Accounts.CrmAccount>)
    requires KeysUnique(Partners(accounts), Accounts.KnownName)
    ensures |LinkPartners(ls, accounts)| == |ls|
    ensures forall i :: 0 <= i < |ls| ==>
      LinkPartners(ls, accounts)[i] == ls[i].(agencyId := AgencyIdFor(ls[i].rescue, accounts))
  {
    forall i | 0 <= i < |ls| ensures |Lookup(RecipientKey(ls[i]), Partners(accounts), Accounts.KnownName)| <= 1 {
      LookupOfUniqueKeys(RecipientKey(ls[i]), Partners(accounts), Accounts.KnownName);
    }
    LeftJoinAtMostOne(ls, Partners(accounts), RecipientKey, Accounts.KnownName);
  }

  lemma LinkVolunteersUnique(ls: seq<Linking>, contacts: seq<Volunteers.CrmContact>)
    requires KeysUnique(HeroContacts(contacts), Volunteers.KnownVolunteerName)
    ensures |LinkVolunteers(ls, contacts)| == |ls|
    ensures forall i :: 0 <= i < |ls| ==>
      LinkVolunteers(ls, contacts)[i] == ls[i].(volunteerId := VolunteerIdFor(ls[i].rescue, contacts))
  {
    forall i | 0 <= i < |ls| ensures |Lookup(VolunteerKey(ls[i]), HeroContacts(contacts), Volunteers.KnownVolunteerName)| <= 1 {
      LookupOfUniqueKeys(VolunteerKey(ls[i]), HeroContacts(contacts), Volunteers.KnownVolunteerName);
    }
    LeftJoinAtMostOne(ls, HeroContacts(contacts), VolunteerKey, Volunteers.KnownVolunteerName);
  }

  /**
   * When no two donors, no two partners and no two volunteers share a
   * normalised name, each closed rescue is uploaded once, in order, with each
   * link the Id of the one CRM record of that name, or null when there is none.
   */
  lemma LinkRescuesOnePerRescue(rescues: seq<AdminRescue>, accounts: seq<Accounts.CrmAccount>, contacts: seq<Volunteers.CrmContact>)
    requires KeysUnique(Donors(accounts), Accounts.KnownName)
    requires KeysUnique(Partners(accounts), Accounts.KnownName)
    requires KeysUnique(HeroContacts(contacts), Volunteers.KnownVolunteerName)
    ensures var closed := Filter(rescues, Closed);
      |LinkRescues(rescues, accounts, contacts)| == |closed| &&
      forall i :: 0 <= i < |closed| ==>
        LinkRescues(rescues, accounts, contacts)[i] == Uploaded(closed[i],
          DonorIdFor(closed[i], accounts), AgencyIdFor(closed[i], accounts), VolunteerIdFor(closed[i], contacts))
  {
    var closed := Map(Filter(rescues, Closed), Unlinked);
    var l1 := LinkDonors(closed, accounts);
    LinkDonorsUnique(closed, accounts);
    var l2 := LinkPartners(l1, accounts);
    LinkPartnersUnique(l1, accounts);
    LinkVolunteersUnique(l2, contacts);
  }

  /**
   * uploadNewFoodRescues without its I/O: the new rescues, passed on to
   * uploadFoodRescues (functions.py:397).
   */
  function UploadNewFoodRescues(admin: seq<AdminRescue>, crm: seq<CrmRescue>,
                                accounts: seq<Accounts.CrmAccount>, contacts: seq<Volunteers.CrmContact>)
    : seq<RescueUpload>
  {
    LinkRescues(NewFoodRescues(admin, crm), accounts, contacts)
  }

  /**
   * Every rescue uploaded is a completed or canceled admin rescue whose key
   * triple no CRM rescue carries, its own columns unchanged.
   */
  lemma UploadedRescuesAreNewAndClosed(admin: seq<AdminRescue>, crm: seq<CrmRescue>,
                                       accounts: seq<Accounts.CrmAccount>, contacts: seq<Volunteers.CrmContact>)
    ensures forall u :: u in UploadNewFoodRescues(admin, crm, accounts, contacts) ==>
      exists a :: a in admin && Closed(a) && (forall c :: c in crm ==> CrmKey(c) != AdminKey(a)) &&
        u == Uploaded(a, u.donorId, u.agencyId, u.volunteerId)
  {
    NewFoodRescuesSpec(admin, crm);
    LinkedRescuesAreClosed(NewFoodRescues(admin, crm), accounts, contacts);
  }
}
