/**
 * The admins screen (src/pages/Admins.tsx): the super-admin gate, the search,
 * and the add / edit / delete handlers over the in-memory list of department
 * administrators.
 */
module Admins {
  import opened Common
  import opened Text
  import opened Lists
  import opened Ids
  import AuthContext
  import App

  datatype AdminRecord = AdminRecord(
    id: string, name: string, email: string, department: string,
    studentsManaged: nat, dateAdded: string)

  /** The add form. Its password is collected but never stored in the list. */
  datatype AdminForm = AdminForm(name: string, email: string, department: string, password: string)

  const InitialAdmins: seq<AdminRecord> := [
    AdminRecord("1", "Computer Science Admin", "csadmin@college.edu", "Computer Science", 320, "2023-06-15"),
    AdminRecord("2", "Engineering Admin", "engadmin@college.edu", "Engineering", 275, "2023-05-20"),
    AdminRecord("3", "Business Admin", "businessadmin@college.edu", "Business", 310, "2023-04-10"),
    AdminRecord("4", "Arts Admin", "artsadmin@college.edu", "Arts", 190, "2023-07-05")
  ]

  /** The form as it starts and as it is reset after an add: every field empty. */
  const BlankForm: AdminForm := AdminForm("", "", "", "")

  /**
   * `iso.split('T')[0]`: the text before the first 'T', or all of it when
   * there is none. Applied to the clock's ISO timestamp it gives the date.
   */
  function DatePart(iso: string): (d: string)
    ensures |d| <= |iso| && d == iso[..|d|]
    ensures 'T' !in d
    ensures |d| < |iso| ==> iso[|d|] == 'T'
  {
    if iso == [] || iso[0] == 'T' then []
    else [iso[0]] + DatePart(iso[1..])
  }

  /** The record `handleAddAdmin` appends to a list of the given length on the given timestamp. */
  function NewRecord(form: AdminForm, length: nat, now: string): AdminRecord {
    AdminRecord(NextIdAsWritten(length), form.name, form.email, form.department, 0, DatePart(now))
  }

  // ---------------------------------------------------------------------------
  // The gate and the search

  /** The lowercased term occurs in the lowercased name, email or department. */
  predicate MatchesSearch(a: AdminRecord, term: string) {
    var t := Lower(term);
    Contains(Lower(a.name), t) || Contains(Lower(a.email), t) || Contains(Lower(a.department), t)
  }

  function FilteredAdmins(admins: seq<AdminRecord>, term: string): seq<AdminRecord> {
    Filter(admins, a => MatchesSearch(a, term))
  }

  /** What the screen renders: a refusal panel, or the table of matching admins. */
  datatype View = UnauthorizedPanel | AdminTable(rows: seq<AdminRecord>)

  /** Only a super admin gets the table; everyone else gets the refusal panel. */
  function ViewFor(isSuperAdmin: bool, admins: seq<AdminRecord>, term: string): (v: View)
    ensures v.UnauthorizedPanel? <==> !isSuperAdmin
    ensures v.AdminTable? ==> forall a :: a in v.rows <==> a in admins && MatchesSearch(a, term)
  {
    if !isSuperAdmin then UnauthorizedPanel else AdminTable(FilteredAdmins(admins, term))
  }

  /** The search keeps the list's order: it distributes over concatenation. */
  lemma SearchKeepsOrder(a: seq<AdminRecord>, b: seq<AdminRecord>, term: string)
    ensures FilteredAdmins(a + b, term) == FilteredAdmins(a, term) + FilteredAdmins(b, term)
  {
    FilterAppend(a, b, x => MatchesSearch(x, term));
  }

  /** An empty search keeps every admin. */
  lemma EmptySearchKeepsAll(admins: seq<AdminRecord>)
    ensures FilteredAdmins(admins, "") == admins
  {
    forall a | a in admins ensures MatchesSearch(a, "") {
      ContainsEmpty(Lower(a.name));
    }
    FilterKeepsAll(admins, x => MatchesSearch(x, ""));
  }

  /** The search ignores the case of the term. */
  lemma SearchIgnoresCase(admins: seq<AdminRecord>, term: string)
    ensures FilteredAdmins(admins, Lower(term)) == FilteredAdmins(admins, term)
  {
    LowerIdempotent(term);
    FilterCongruent(admins, x => MatchesSearch(x, Lower(term)), x => MatchesSearch(x, term));
  }

  // ---------------------------------------------------------------------------
  // The list and its handlers

  /** `admins.map(a => a.id === selected.id ? selected : a)`. */
  function ReplaceById(admins: seq<AdminRecord>, selected: AdminRecord): seq<AdminRecord> {
    ReplaceWhere(admins, (a: AdminRecord) => a.id == selected.id, selected)
  }

  /** `admins.filter(a => a.id !== id)`. */
  function RemoveById(admins: seq<AdminRecord>, id: string): seq<AdminRecord> {
    Filter(admins, (a: AdminRecord) => a.id != id)
  }

  function IdsOf(admins: seq<AdminRecord>): (ids: seq<string>)
    ensures |ids| == |admins|
    ensures forall i :: 0 <= i < |admins| ==> ids[i] == admins[i].id
  {
    seq(|admins|, i requires 0 <= i < |admins| => admins[i].id)
  }

  /** The record an add should append: the same fields, with an id no row holds. */
  function CorrectedRecord(form: AdminForm, admins: seq<AdminRecord>, now: string): (r: AdminRecord)
    ensures r.id !in IdsOf(admins)
    ensures r == NewRecord(form, |admins|, now).(id := r.id)
  {
    NewRecord(form, |admins|, now).(id := FreshId(IdsOf(admins)))
  }

  class AdminsPage {
    var admins: seq<AdminRecord>
    var searchTerm: string
    /** The row picked from a row menu, as edited in the edit dialog. */
    var currentAdmin: Option<AdminRecord>
    var newAdmin: AdminForm

    constructor ()
      ensures admins == InitialAdmins && searchTerm == ""
      ensures currentAdmin == None && newAdmin == BlankForm
    {
      admins := InitialAdmins;
      searchTerm := "";
      currentAdmin := None;
      newAdmin := BlankForm;
    }

    /** What the screen shows to a viewer with the given super-admin flag. */
    function Shown(isSuperAdmin: bool): View
      reads this
    {
      ViewFor(isSuperAdmin, admins, searchTerm)
    }

    /** A row menu's Edit or Delete item (or an edit of a field of the selected record). */
    method Select(a: AdminRecord)
      modifies this
      ensures currentAdmin == Some(a)
      ensures admins == old(admins) && searchTerm == old(searchTerm) && newAdmin == old(newAdmin)
    {
      currentAdmin := Some(a);
    }

    /** `handleAddAdmin`, with the clock's ISO timestamp passed in as `now`. */
    method AddAdmin(now: string)
      modifies this
      ensures admins == old(admins) + [NewRecord(old(newAdmin), |old(admins)|, now)]
      ensures newAdmin == BlankForm
      ensures currentAdmin == old(currentAdmin) && searchTerm == old(searchTerm)
    {
      var id := NextIdAsWritten(|admins|);
      var today := DatePart(now);
      admins := admins + [AdminRecord(id, newAdmin.name, newAdmin.email, newAdmin.department, 0, today)];
      newAdmin := BlankForm;
    }

    /** The add handler with the corrected id rule: it keeps the ids unique. */
    method AddAdminCorrected(now: string)
      modifies this
      ensures admins == old(admins) + [CorrectedRecord(old(newAdmin), old(admins), now)]
      ensures Unique(IdsOf(old(admins))) ==> Unique(IdsOf(admins))
      ensures newAdmin == BlankForm
      ensures currentAdmin == old(currentAdmin) && searchTerm == old(searchTerm)
    {
      if Unique(IdsOf(admins)) {
        FreshIdKeepsAdminIdsUnique(admins, newAdmin, now);
      }
      admins := admins + [CorrectedRecord(newAdmin, admins, now)];
      newAdmin := BlankForm;
    }

    method EditAdmin()
      modifies this
      ensures currentAdmin == old(currentAdmin) && searchTerm == old(searchTerm) && newAdmin == old(newAdmin)
      ensures currentAdmin.None? ==> admins == old(admins)
      ensures currentAdmin.Some? ==> admins == ReplaceById(old(admins), currentAdmin.value)
    {
      if currentAdmin.None? {
        return;
      }
      var selected := currentAdmin.value;
      admins := ReplaceById(admins, selected);
    }

    method DeleteAdmin()
      modifies this
      ensures currentAdmin == old(currentAdmin) && searchTerm == old(searchTerm) && newAdmin == old(newAdmin)
      ensures currentAdmin.None? ==> admins == old(admins)
      ensures currentAdmin.Some? ==> admins == RemoveById(old(admins), currentAdmin.value.id)
    {
      if currentAdmin.None? {
        return;
      }
      var selected := currentAdmin.value;
      admins := RemoveById(admins, selected.id);
    }
  }

  /** On a page with an empty search, a super admin sees every admin, in order, and anyone else the refusal panel. */
  lemma EmptySearchShowsAll(page: AdminsPage)
    requires page.searchTerm == ""
    ensures page.Shown(true) == AdminTable(page.admins)
    ensures page.Shown(false) == UnauthorizedPanel
  {
    EmptySearchKeepsAll(page.admins);
  }

  // ---------------------------------------------------------------------------
  // What the handlers promise

  /** Adding appends one record: the old ones stay, and the new one manages no students and is dated today. */
  lemma AddAppendsOne(admins: seq<AdminRecord>, form: AdminForm, now: string)
    ensures var after := admins + [NewRecord(form, |admins|, now)];
      && |after| == |admins| + 1
      && after[..|admins|] == admins
      && after[|admins|].id == Decimal(|admins| + 1)
      && ParseDecimal(after[|admins|].id) == |admins| + 1
      && after[|admins|].studentsManaged == 0
      && 'T' !in after[|admins|].dateAdded
      && after[|admins|].dateAdded == now[..|after[|admins|].dateAdded|]
  {
    assert (admins + [NewRecord(form, |admins|, now)])[..|admins|] == admins;
  }

  /** Editing keeps the length and touches only the records with the selected id. */
  lemma EditTouchesOnlySelected(admins: seq<AdminRecord>, selected: AdminRecord)
    ensures var after := ReplaceById(admins, selected);
      && |after| == |admins|
      && forall i :: 0 <= i < |admins| ==>
           after[i] == (if admins[i].id == selected.id then selected else admins[i])
  {
  }

  /** Deleting removes exactly the records with the selected id and keeps the rest. */
  lemma DeleteRemovesExactlySelected(admins: seq<AdminRecord>, id: string)
    ensures var after := RemoveById(admins, id);
      && (forall a :: a in after <==> a in admins && a.id != id)
      && |after| + |Filter(admins, (a: AdminRecord) => a.id == id)| == |admins|
  {
    FilterPartition(admins, (a: AdminRecord) => a.id != id, (a: AdminRecord) => a.id == id);
  }

  /** Deleting keeps the order of the rest: it distributes over concatenation. */
  lemma DeleteKeepsOrder(x: seq<AdminRecord>, y: seq<AdminRecord>, id: string)
    ensures RemoveById(x + y, id) == RemoveById(x, id) + RemoveById(y, id)
  {
    FilterAppend(x, y, (a: AdminRecord) => a.id != id);
  }

  // ---------------------------------------------------------------------------
  // Ids after a delete

  /** The initial list has four distinct ids, "1" to "4". */
  lemma InitialIdsUnique()
    ensures IdsOf(InitialAdmins) == ["1", "2", "3", "4"]
    ensures Unique(IdsOf(InitialAdmins))
  {
    assert IdsOf(InitialAdmins) == ["1", "2", "3", "4"];
  }

  /** Deleting by an id held only by the second of four records leaves the other three, in order. */
  lemma DeleteSecondOfFour(a: AdminRecord, b: AdminRecord, c: AdminRecord, d: AdminRecord)
    requires b.id == "2" && a.id != "2" && c.id != "2" && d.id != "2"
    ensures RemoveById([a, b, c, d], "2") == [a, c, d]
  {
    assert RemoveById([d], "2") == [d] by { assert [d][1..] == []; }
    assert RemoveById([c, d], "2") == [c, d] by { assert [c, d][1..] == [d]; }
    assert RemoveById([b, c, d], "2") == [c, d] by { assert [b, c, d][1..] == [c, d]; }
    assert [a, b, c, d][1..] == [b, c, d];
  }

  /** The record added to a three-row list gets id "4". */
  lemma AddToThreeGetsFour(form: AdminForm, now: string)
    ensures NewRecord(form, 3, now).id == "4"
  {
    assert Decimal(4) == [DigitChar(4)];
  }

  /** Four rows whose last id is "4": delete row "2", add one, and two rows share id "4". */
  lemma DeleteThenAddCollides(a: AdminRecord, b: AdminRecord, c: AdminRecord, d: AdminRecord,
                              form: AdminForm, now: string)
    requires b.id == "2" && a.id != "2" && c.id != "2" && d.id == "4"
    ensures var afterDelete := RemoveById([a, b, c, d], "2");
      var afterAdd := afterDelete + [NewRecord(form, |afterDelete|, now)];
      && |afterDelete| == 3
      && afterAdd[3].id == afterAdd[2].id == "4"
      && !Unique(IdsOf(afterAdd))
  {
    DeleteSecondOfFour(a, b, c, d);
    AddToThreeGetsFour(form, now);
    var added := NewRecord(form, 3, now);
    var afterAdd := [a, c, d] + [added];
    assert afterAdd[2] == d && afterAdd[3] == added;
    var ids := IdsOf(afterAdd);
    assert ids[2] == ids[3];
  }

  /**
   * The length-based id can repeat one in use: delete admin "2" from the
   * initial list, add an admin, and the new record gets id "4", which the Arts
   * admin already has; a later edit or delete of either then hits both.
   */
  lemma AddAfterDeleteReusesId(form: AdminForm, now: string)
    ensures var afterDelete := RemoveById(InitialAdmins, "2");
      var afterAdd := afterDelete + [NewRecord(form, |afterDelete|, now)];
      && |afterDelete| == 3
      && afterAdd[3].id == afterAdd[2].id == "4"
      && !Unique(IdsOf(afterAdd))
  {
    var all := InitialAdmins;
    assert all == [all[0], all[1], all[2], all[3]];
    DeleteThenAddCollides(all[0], all[1], all[2], all[3], form, now);
  }

  /** With the corrected rule, adding to a list with unique ids keeps them unique. */
  lemma FreshIdKeepsAdminIdsUnique(admins: seq<AdminRecord>, form: AdminForm, now: string)
    requires Unique(IdsOf(admins))
    ensures Unique(IdsOf(admins + [CorrectedRecord(form, admins, now)]))
  {
    var r := CorrectedRecord(form, admins, now);
    FreshIdKeepsUnique(IdsOf(admins));
    var after := admins + [r];
    assert IdsOf(after) == IdsOf(admins) + [FreshId(IdsOf(admins))] by {
      forall i | 0 <= i < |after| ensures IdsOf(after)[i] == (IdsOf(admins) + [FreshId(IdsOf(admins))])[i] {
      }
    }
  }

  /**
   * Whatever path is opened, in whatever session state: if the app settles on
   * the admins screen, the screen's own gate lets the viewer through to the table.
   */
  lemma RoutedViewersSeeTable(isLoading: bool, user: Option<AuthContext.User>, path: string,
                              admins: seq<AdminRecord>, term: string)
    ensures App.OpenPath(isLoading, user, path).Landed?
         && App.OpenPath(isLoading, user, path).screen == App.AdminsScreen
         ==> ViewFor(AuthContext.IsSuperAdmin(user), admins, term).AdminTable?
  {
    App.EveryVisitSettlesSafely(isLoading, user, path);
  }
}
