/**
 * The portfolio data-access object: portfolios, their references to other
 * portfolios or applications, and their directly selected projects, held in
 * three in-memory tables, with every insert, update and delete of a
 * portfolio reported to the audit log.
 */
module PortfolioDao {
  import opened Wrappers
  import opened Sequences

  /** The component qualifiers of a root portfolio and of a sub-portfolio. */
  const VIEW := "VW"
  const SUBVIEW := "SVW"

  datatype Portfolio = Portfolio(
    uuid: string,
    key: string,
    name: string,
    description: Option<string>,
    isPrivate: bool,
    rootUuid: string,
    parentUuid: Option<string>,
    selectionMode: string,
    selectionExpression: Option<string>,
    createdAt: int,
    updatedAt: int)

  /** A portfolio is a root exactly when it has no parent. */
  predicate IsRoot(p: Portfolio) {
    p.parentUuid.None?
  }

  /** The argument check of `insert` and `update`: a root is its own root and only a root is. */
  predicate RootConsistent(p: Portfolio) {
    IsRoot(p) == (p.uuid == p.rootUuid)
  }

  /** Row identifiers handed out by the uuid factory, in the order it creates them. */
  type RowId = nat

  datatype Reference = Reference(uuid: RowId, portfolioUuid: string, referenceUuid: string, createdAt: int)

  datatype PortfolioProject = PortfolioProject(uuid: RowId, portfolioUuid: string, projectUuid: string, createdAt: int)

  datatype Tables = Tables(
    portfolios: map<string, Portfolio>,
    references: seq<Reference>,
    projects: seq<PortfolioProject>)

  /** What the audit log records about a portfolio. */
  datatype ComponentNewValue = ComponentNewValue(
    componentUuid: string,
    name: string,
    key: string,
    isPrivate: bool,
    description: Option<string>,
    qualifier: string)

  datatype AuditEvent =
    | ComponentAdded(value: ComponentNewValue)
    | ComponentUpdated(value: ComponentNewValue)
    | ComponentDeleted(value: ComponentNewValue)

  /** The exceptions a write can end with. */
  datatype Error =
    | IllegalArgument      // the root-consistency check failed
    | ConstraintViolation  // the uuid or the key is already taken by another row

  datatype Write = Written(tables: Tables) | Rejected(error: Error)

  /** `qualifier`: VIEW for a root portfolio, SUBVIEW for any other. */
  function Qualifier(p: Portfolio): (q: string)
    ensures q == VIEW <==> IsRoot(p)
    ensures q == SUBVIEW <==> !IsRoot(p)
  {
    if IsRoot(p) then VIEW else SUBVIEW
  }

  /** `toComponentNewValue`. */
  function ToComponentNewValue(p: Portfolio): (v: ComponentNewValue)
    ensures v.componentUuid == p.uuid && v.key == p.key
    ensures v.qualifier == VIEW <==> IsRoot(p)
  {
    ComponentNewValue(p.uuid, p.name, p.key, p.isPrivate, p.description, Qualifier(p))
  }

  // ---------------------------------------------------------------------
  // Table invariant
  // ---------------------------------------------------------------------

  /** No two rows with the same id. */
  predicate UniqueReferenceIds(s: seq<Reference>) {
    forall x, y :: x in s && y in s && x.uuid == y.uuid ==> x == y
  }

  predicate UniqueProjectIds(s: seq<PortfolioProject>) {
    forall x, y :: x in s && y in s && x.uuid == y.uuid ==> x == y
  }

  /** Some other portfolio than `uuid` has this key. */
  predicate KeyTakenByOther(portfolios: map<string, Portfolio>, uuid: string, key: string) {
    exists u :: u in portfolios && u != uuid && portfolios[u].key == key
  }

  /**
   * The tables as the database keeps them: portfolios are indexed by uuid and
   * have distinct keys, every portfolio passed the root check, and every row
   * id was created by the factory, which has created `uuidsCreated` of them.
   */
  predicate WellFormed(t: Tables, uuidsCreated: nat) {
    (forall u :: u in t.portfolios ==> t.portfolios[u].uuid == u && RootConsistent(t.portfolios[u])) &&
    (forall u :: u in t.portfolios ==> !KeyTakenByOther(t.portfolios, u, t.portfolios[u].key)) &&
    (forall x :: x in t.references ==> x.uuid < uuidsCreated) &&
    (forall x :: x in t.projects ==> x.uuid < uuidsCreated) &&
    UniqueReferenceIds(t.references) && UniqueProjectIds(t.projects)
  }

  // ---------------------------------------------------------------------
  // Reads
  // ---------------------------------------------------------------------

  function SelectByUuid(t: Tables, uuid: string): (r: Option<Portfolio>)
    ensures r.Some? <==> uuid in t.portfolios
    ensures r.Some? ==> r.value == t.portfolios[uuid]
  {
    if uuid in t.portfolios then Some(t.portfolios[uuid]) else None
  }

  /** `selectByUuids`: an empty set of uuids is answered without a query. */
  function SelectByUuids(t: Tables, uuids: set<string>): (r: set<Portfolio>)
    ensures forall u :: u in uuids && u in t.portfolios ==> t.portfolios[u] in r
    ensures forall p :: p in r ==> exists u :: u in uuids && u in t.portfolios && t.portfolios[u] == p
    ensures uuids == {} ==> r == {}
  {
    if uuids == {} then {}
    else set u | u in uuids && u in t.portfolios :: t.portfolios[u]
  }

  /** `selectKeysByUuids`: each requested uuid that is found, mapped to its portfolio's key. */
  function SelectKeysByUuids(t: Tables, uuids: set<string>): (r: map<string, string>)
    ensures forall u :: u in r <==> u in uuids && u in t.portfolios
    ensures forall u :: u in r ==> u in t.portfolios && r[u] == t.portfolios[u].key
  {
    map u | u in uuids && u in t.portfolios :: t.portfolios[u].key
  }

  function SelectAllRoots(t: Tables): (r: set<Portfolio>)
    ensures forall p :: p in r <==> p in t.portfolios.Values && IsRoot(p)
  {
    set p | p in t.portfolios.Values && IsRoot(p)
  }

  /** `selectReferenceUuids`: what a portfolio references. */
  function SelectReferenceUuids(t: Tables, portfolioUuid: string): (r: set<string>)
    ensures forall u :: u in r <==> exists x :: x in t.references && x.portfolioUuid == portfolioUuid && x.referenceUuid == u
  {
    set x | x in t.references && x.portfolioUuid == portfolioUuid :: x.referenceUuid
  }

  /** The uuids of the projects `selectProjects` returns for a portfolio. */
  function SelectProjects(t: Tables, portfolioUuid: string): (r: set<string>)
    ensures forall u :: u in r <==> exists x :: x in t.projects && x.portfolioUuid == portfolioUuid && x.projectUuid == u
  {
    set x | x in t.projects && x.portfolioUuid == portfolioUuid :: x.projectUuid
  }

  // ---------------------------------------------------------------------
  // Writes, as transitions of the tables
  // ---------------------------------------------------------------------

  /** `insert`: the root check first, then the row, which the uuid and key constraints may refuse. */
  function InsertPortfolio(t: Tables, p: Portfolio): (r: Write)
    ensures !RootConsistent(p) ==> r == Rejected(IllegalArgument)
    ensures RootConsistent(p) && (p.uuid in t.portfolios || KeyTakenByOther(t.portfolios, p.uuid, p.key)) ==>
      r == Rejected(ConstraintViolation)
    ensures r.Written? ==>
      SelectByUuid(r.tables, p.uuid) == Some(p) &&
      (forall u :: u != p.uuid ==> SelectByUuid(r.tables, u) == SelectByUuid(t, u)) &&
      r.tables.references == t.references && r.tables.projects == t.projects
  {
    if !RootConsistent(p) then Rejected(IllegalArgument)
    else if p.uuid in t.portfolios || KeyTakenByOther(t.portfolios, p.uuid, p.key) then Rejected(ConstraintViolation)
    else Written(t.(portfolios := t.portfolios[p.uuid := p]))
  }

  /**
   * The mapper's update: the row with the portfolio's uuid takes the
   * portfolio's values; without such a row nothing changes.
   */
  function UpdatePortfolio(t: Tables, p: Portfolio): (r: Write)
    ensures !RootConsistent(p) ==> r == Rejected(IllegalArgument)
    ensures RootConsistent(p) && KeyTakenByOther(t.portfolios, p.uuid, p.key) ==> r == Rejected(ConstraintViolation)
    ensures r.Written? ==>
      (p.uuid in t.portfolios ==> SelectByUuid(r.tables, p.uuid) == Some(p)) &&
      (forall u :: u != p.uuid || p.uuid !in t.portfolios ==> SelectByUuid(r.tables, u) == SelectByUuid(t, u)) &&
      r.tables.references == t.references && r.tables.projects == t.projects
  {
    if !RootConsistent(p) then Rejected(IllegalArgument)
    else if KeyTakenByOther(t.portfolios, p.uuid, p.key) then Rejected(ConstraintViolation)
    else if p.uuid in t.portfolios then Written(t.(portfolios := t.portfolios[p.uuid := p]))
    else Written(t)
  }

  /** `delete`: the portfolio's row, every reference from or to it, and its project links. */
  function DeletePortfolio(t: Tables, uuid: string): (r: Tables)
    ensures uuid !in r.portfolios
    ensures forall u :: u != uuid ==> SelectByUuid(r, u) == SelectByUuid(t, u)
    ensures forall x :: x in r.references <==> x in t.references && x.portfolioUuid != uuid && x.referenceUuid != uuid
    ensures forall x :: x in r.projects <==> x in t.projects && x.portfolioUuid != uuid
  {
    Tables(
      t.portfolios - {uuid},
      Filter(t.references, (x: Reference) => x.portfolioUuid != uuid && x.referenceUuid != uuid),
      Filter(t.projects, (x: PortfolioProject) => x.portfolioUuid != uuid))
  }

  /** The portfolios `deleteAllDescendantPortfolios` removes: the non-root members of one tree. */
  predicate IsDescendantOf(p: Portfolio, rootUuid: string) {
    p.rootUuid == rootUuid && !IsRoot(p)
  }

  function DeleteDescendants(t: Tables, rootUuid: string): (r: Tables)
    ensures forall u :: u in r.portfolios <==> u in t.portfolios && !IsDescendantOf(t.portfolios[u], rootUuid)
    ensures forall u :: u in r.portfolios ==> u in t.portfolios && r.portfolios[u] == t.portfolios[u]
    ensures r.references == t.references && r.projects == t.projects
  {
    t.(portfolios := map u | u in t.portfolios && !IsDescendantOf(t.portfolios[u], rootUuid) :: t.portfolios[u])
  }

  /** `deleteReference`: only the rows from that portfolio to that reference. */
  function WithoutReference(refs: seq<Reference>, portfolioUuid: string, referenceUuid: string): (r: seq<Reference>)
    ensures forall x :: x in r <==> x in refs && !(x.portfolioUuid == portfolioUuid && x.referenceUuid == referenceUuid)
  {
    Filter(refs, (x: Reference) => !(x.portfolioUuid == portfolioUuid && x.referenceUuid == referenceUuid))
  }

  /** `deleteReferencesTo`: every row whose target is the given uuid. */
  function WithoutReferencesTo(refs: seq<Reference>, referenceUuid: string): (r: seq<Reference>)
    ensures forall x :: x in r <==> x in refs && x.referenceUuid != referenceUuid
  {
    Filter(refs, (x: Reference) => x.referenceUuid != referenceUuid)
  }

  /** `deleteProjects`: every project link of one portfolio. */
  function WithoutProjectsOf(links: seq<PortfolioProject>, portfolioUuid: string): (r: seq<PortfolioProject>)
    ensures forall x :: x in r <==> x in links && x.portfolioUuid != portfolioUuid
  {
    Filter(links, (x: PortfolioProject) => x.portfolioUuid != portfolioUuid)
  }

  /** `deleteProject`: only the link between that portfolio and that project. */
  function WithoutProject(links: seq<PortfolioProject>, portfolioUuid: string, projectUuid: string): (r: seq<PortfolioProject>)
    ensures forall x :: x in r <==> x in links && !(x.portfolioUuid == portfolioUuid && x.projectUuid == projectUuid)
  {
    Filter(links, (x: PortfolioProject) => !(x.portfolioUuid == portfolioUuid && x.projectUuid == projectUuid))
  }

  // ---------------------------------------------------------------------
  // The DAO
  // ---------------------------------------------------------------------

  class PortfolioDao {
    var tables: Tables
    var audit: seq<AuditEvent>
    /** How many uuids the uuid factory has created; the next one is this number. */
    var uuidsCreated: nat

    ghost predicate Valid()
      reads this
    {
      WellFormed(tables, uuidsCreated)
    }

    constructor ()
      ensures Valid()
      ensures tables == Tables(map[], [], []) && audit == [] && uuidsCreated == 0
    {
      tables := Tables(map[], [], []);
      audit := [];
      uuidsCreated := 0;
    }

    method Insert(p: Portfolio) returns (error: Option<Error>)
      requires Valid()
      modifies this
      ensures Valid()
      ensures InsertPortfolio(old(tables), p).Rejected? ==>
        error == Some(InsertPortfolio(old(tables), p).error) && unchanged(this)
      ensures InsertPortfolio(old(tables), p).Written? ==>
        error == None && tables == InsertPortfolio(old(tables), p).tables &&
        audit == old(audit) + [ComponentAdded(ToComponentNewValue(p))] && uuidsCreated == old(uuidsCreated)
    {
      var w := InsertPortfolio(tables, p);
      if w.Rejected? {
        return Some(w.error);
      }
      InsertKeepsWellFormed(tables, uuidsCreated, p);
      tables := w.tables;
      audit := audit + [ComponentAdded(ToComponentNewValue(p))];
      error := None;
    }

    /** `update` sets the portfolio's update date before writing it; `updated` is the portfolio afterwards. */
    method Update(p: Portfolio, now: int) returns (error: Option<Error>, updated: Portfolio)
      requires Valid()
      modifies this
      ensures Valid()
      ensures !RootConsistent(p) ==> error == Some(IllegalArgument) && updated == p && unchanged(this)
      ensures RootConsistent(p) ==> updated == p.(updatedAt := now)
      ensures RootConsistent(p) && UpdatePortfolio(old(tables), updated).Rejected? ==>
        error == Some(ConstraintViolation) && unchanged(this)
      ensures RootConsistent(p) && UpdatePortfolio(old(tables), updated).Written? ==>
        error == None && tables == UpdatePortfolio(old(tables), updated).tables &&
        audit == old(audit) + [ComponentUpdated(ToComponentNewValue(updated))] && uuidsCreated == old(uuidsCreated)
    {
      if !RootConsistent(p) {
        return Some(IllegalArgument), p;
      }
      updated := p.(updatedAt := now);
      var w := UpdatePortfolio(tables, updated);
      if w.Rejected? {
        return Some(w.error), updated;
      }
      UpdateKeepsWellFormed(tables, uuidsCreated, updated);
      tables := w.tables;
      audit := audit + [ComponentUpdated(ToComponentNewValue(updated))];
      error := None;
    }

    /** `delete` audits the deletion once, whatever was found to delete. */
    method Delete(p: Portfolio)
      requires Valid()
      modifies this
      ensures Valid()
      ensures tables == DeletePortfolio(old(tables), p.uuid)
      ensures audit == old(audit) + [ComponentDeleted(ToComponentNewValue(p))]
      ensures uuidsCreated == old(uuidsCreated)
    {
      DeleteKeepsWellFormed(tables, uuidsCreated, p.uuid);
      tables := DeletePortfolio(tables, p.uuid);
      audit := audit + [ComponentDeleted(ToComponentNewValue(p))];
    }

    /** Not audited. */
    method DeleteAllDescendantPortfolios(rootUuid: string)
      requires Valid()
      modifies this
      ensures Valid()
      ensures tables == DeleteDescendants(old(tables), rootUuid)
      ensures audit == old(audit) && uuidsCreated == old(uuidsCreated)
    {
      tables := DeleteDescendants(tables, rootUuid);
    }

    method AddReference(portfolioUuid: string, referenceUuid: string, now: int)
      requires Valid()
      modifies this
      ensures Valid()
      ensures tables == old(tables).(references :=
        old(tables).references + [Reference(old(uuidsCreated), portfolioUuid, referenceUuid, now)])
      ensures forall x :: x in old(tables).references ==> x.uuid != old(uuidsCreated)
      ensures audit == old(audit) && uuidsCreated == old(uuidsCreated) + 1
    {
      var row := Reference(uuidsCreated, portfolioUuid, referenceUuid, now);
      tables := tables.(references := tables.references + [row]);
      uuidsCreated := uuidsCreated + 1;
    }

    method AddProject(portfolioUuid: string, projectUuid: string, now: int)
      requires Valid()
      modifies this
      ensures Valid()
      ensures tables == old(tables).(projects :=
        old(tables).projects + [PortfolioProject(old(uuidsCreated), portfolioUuid, projectUuid, now)])
      ensures forall x :: x in old(tables).projects ==> x.uuid != old(uuidsCreated)
      ensures audit == old(audit) && uuidsCreated == old(uuidsCreated) + 1
    {
      var row := PortfolioProject(uuidsCreated, portfolioUuid, projectUuid, now);
      tables := tables.(projects := tables.projects + [row]);
      uuidsCreated := uuidsCreated + 1;
    }

    /** Returns the number of rows deleted. */
    method DeleteReference(portfolioUuid: string, referenceUuid: string) returns (deleted: int)
      requires Valid()
      modifies this
      ensures Valid()
      ensures tables == old(tables).(references := WithoutReference(old(tables).references, portfolioUuid, referenceUuid))
      ensures deleted == |old(tables).references| - |tables.references|
      ensures audit == old(audit) && uuidsCreated == old(uuidsCreated)
    {
      var before := |tables.references|;
      tables := tables.(references := WithoutReference(tables.references, portfolioUuid, referenceUuid));
      deleted := before - |tables.references|;
    }

    method DeleteReferencesTo(referenceUuid: string)
      requires Valid()
      modifies this
      ensures Valid()
      ensures tables == old(tables).(references := WithoutReferencesTo(old(tables).references, referenceUuid))
      ensures audit == old(audit) && uuidsCreated == old(uuidsCreated)
    {
      tables := tables.(references := WithoutReferencesTo(tables.references, referenceUuid));
    }

    method DeleteAllReferences()
      requires Valid()
      modifies this
      ensures Valid()
      ensures tables == old(tables).(references := [])
      ensures audit == old(audit) && uuidsCreated == old(uuidsCreated)
    {
      tables := tables.(references := []);
    }

    method DeleteProjects(portfolioUuid: string)
      requires Valid()
      modifies this
      ensures Valid()
      ensures tables == old(tables).(projects := WithoutProjectsOf(old(tables).projects, portfolioUuid))
      ensures audit == old(audit) && uuidsCreated == old(uuidsCreated)
    {
      tables := tables.(projects := WithoutProjectsOf(tables.projects, portfolioUuid));
    }

    method DeleteProject(portfolioUuid: string, projectUuid: string)
      requires Valid()
      modifies this
      ensures Valid()
      ensures tables == old(tables).(projects := WithoutProject(old(tables).projects, portfolioUuid, projectUuid))
      ensures audit == old(audit) && uuidsCreated == old(uuidsCreated)
    {
      tables := tables.(projects := WithoutProject(tables.projects, portfolioUuid, projectUuid));
    }

    method DeleteAllProjects()
      requires Valid()
      modifies this
      ensures Valid()
      ensures tables == old(tables).(projects := [])
      ensures audit == old(audit) && uuidsCreated == old(uuidsCreated)
    {
      tables := tables.(projects := []);
    }
  }

  // ---------------------------------------------------------------------
  // Invariant preservation
  // ---------------------------------------------------------------------

  /** Replacing or adding the row `p` keeps keys distinct when no other row has `p`'s key. */
  lemma PutKeepsKeysDistinct(t: Tables, n: nat, p: Portfolio)
    requires WellFormed(t, n) && !KeyTakenByOther(t.portfolios, p.uuid, p.key)
    ensures var m := t.portfolios[p.uuid := p];
      forall u :: u in m ==> !KeyTakenByOther(m, u, m[u].key)
  {
    var m := t.portfolios[p.uuid := p];
    forall u, v | u in m && v in m && v != u
      ensures m[v].key != m[u].key
    {
      if u == p.uuid {
        assert v in t.portfolios && v != p.uuid;
      } else if v == p.uuid {
        assert u in t.portfolios && u != p.uuid;
      } else {
        assert !KeyTakenByOther(t.portfolios, u, t.portfolios[u].key);
      }
    }
  }

  lemma InsertKeepsWellFormed(t: Tables, n: nat, p: Portfolio)
    requires WellFormed(t, n) && InsertPortfolio(t, p).Written?
    ensures WellFormed(InsertPortfolio(t, p).tables, n)
  {
    PutKeepsKeysDistinct(t, n, p);
  }

  lemma UpdateKeepsWellFormed(t: Tables, n: nat, p: Portfolio)
    requires WellFormed(t, n) && UpdatePortfolio(t, p).Written?
    ensures WellFormed(UpdatePortfolio(t, p).tables, n)
  {
    PutKeepsKeysDistinct(t, n, p);
  }

  lemma RemoveKeepsKeysDistinct(portfolios: map<string, Portfolio>, uuid: string)
    requires forall u :: u in portfolios ==> !KeyTakenByOther(portfolios, u, portfolios[u].key)
    ensures var m := portfolios - {uuid};
      forall u :: u in m ==> !KeyTakenByOther(m, u, m[u].key)
  {
    var m := portfolios - {uuid};
    forall u, v | u in m && v in m && v != u
      ensures m[v].key != m[u].key
    {
      assert !KeyTakenByOther(portfolios, u, portfolios[u].key);
    }
  }

  lemma DeleteKeepsWellFormed(t: Tables, n: nat, uuid: string)
    requires WellFormed(t, n)
    ensures WellFormed(DeletePortfolio(t, uuid), n)
  {
    var r := DeletePortfolio(t, uuid);
    RemoveKeepsKeysDistinct(t.portfolios, uuid);
    assert r.portfolios == t.portfolios - {uuid};
    assert forall x :: x in r.references ==> x in t.references;
    assert forall x :: x in r.projects ==> x in t.projects;
  }

  // ---------------------------------------------------------------------
  // Properties of the writes
  // ---------------------------------------------------------------------

  /** A root whose root uuid is another portfolio, and a child that names itself as root, are both refused. */
  lemma InconsistentRootsAreRefused(t: Tables, uuid: string, rootUuid: string, parentUuid: string, p: Portfolio)
    requires p.uuid == uuid
    ensures rootUuid != uuid ==>
      InsertPortfolio(t, p.(parentUuid := None, rootUuid := rootUuid)) == Rejected(IllegalArgument)
    ensures InsertPortfolio(t, p.(parentUuid := Some(parentUuid), rootUuid := uuid)) == Rejected(IllegalArgument)
  {
  }

  /** After `addProject` the portfolio lists the project as well, and nobody else's projects change. */
  lemma AddedProjectIsSelected(t: Tables, row: PortfolioProject, portfolioUuid: string)
    ensures var t' := t.(projects := t.projects + [row]);
      SelectProjects(t', portfolioUuid) ==
        SelectProjects(t, portfolioUuid) + (if row.portfolioUuid == portfolioUuid then {row.projectUuid} else {})
  {
    var t' := t.(projects := t.projects + [row]);
    forall u
      ensures u in SelectProjects(t', portfolioUuid) <==>
        u in SelectProjects(t, portfolioUuid) || (row.portfolioUuid == portfolioUuid && u == row.projectUuid)
    {
      if row.portfolioUuid == portfolioUuid && u == row.projectUuid {
        assert row in t'.projects;
      }
    }
  }

  /** After `addReference` the portfolio references the target as well, and nobody else's references change. */
  lemma AddedReferenceIsSelected(t: Tables, row: Reference, portfolioUuid: string)
    ensures var t' := t.(references := t.references + [row]);
      SelectReferenceUuids(t', portfolioUuid) ==
        SelectReferenceUuids(t, portfolioUuid) + (if row.portfolioUuid == portfolioUuid then {row.referenceUuid} else {})
  {
    var t' := t.(references := t.references + [row]);
    forall u
      ensures u in SelectReferenceUuids(t', portfolioUuid) <==>
        u in SelectReferenceUuids(t, portfolioUuid) || (row.portfolioUuid == portfolioUuid && u == row.referenceUuid)
    {
      if row.portfolioUuid == portfolioUuid && u == row.referenceUuid {
        assert row in t'.references;
      }
    }
  }

  /** `deleteProject` unlinks exactly that project from exactly that portfolio. */
  lemma DeleteProjectRemovesOnlyThatLink(t: Tables, portfolioUuid: string, projectUuid: string, q: string)
    ensures var t' := t.(projects := WithoutProject(t.projects, portfolioUuid, projectUuid));
      SelectProjects(t', q) == SelectProjects(t, q) - (if q == portfolioUuid then {projectUuid} else {})
  {
    var t' := t.(projects := WithoutProject(t.projects, portfolioUuid, projectUuid));
    forall u | u in SelectProjects(t, q) && !(q == portfolioUuid && u == projectUuid)
      ensures u in SelectProjects(t', q)
    {
      var x :| x in t.projects && x.portfolioUuid == q && x.projectUuid == u;
      assert x in t'.projects;
    }
  }

  /** `deleteProjects` empties one portfolio's projects and leaves the others' alone. */
  lemma DeleteProjectsEmptiesOnlyThatPortfolio(t: Tables, portfolioUuid: string, q: string)
    ensures var t' := t.(projects := WithoutProjectsOf(t.projects, portfolioUuid));
      SelectProjects(t', q) == if q == portfolioUuid then {} else SelectProjects(t, q)
  {
    var t' := t.(projects := WithoutProjectsOf(t.projects, portfolioUuid));
    forall u | u in SelectProjects(t, q) && q != portfolioUuid
      ensures u in SelectProjects(t', q)
    {
      var x :| x in t.projects && x.portfolioUuid == q && x.projectUuid == u;
      assert x in t'.projects;
    }
  }

  /** `deleteReference` removes exactly that target from exactly that portfolio's references. */
  lemma DeleteReferenceRemovesOnlyThatTarget(t: Tables, portfolioUuid: string, referenceUuid: string, q: string)
    ensures var t' := t.(references := WithoutReference(t.references, portfolioUuid, referenceUuid));
      SelectReferenceUuids(t', q) == SelectReferenceUuids(t, q) - (if q == portfolioUuid then {referenceUuid} else {})
  {
    var t' := t.(references := WithoutReference(t.references, portfolioUuid, referenceUuid));
    forall u | u in SelectReferenceUuids(t, q) && !(q == portfolioUuid && u == referenceUuid)
      ensures u in SelectReferenceUuids(t', q)
    {
      var x :| x in t.references && x.portfolioUuid == q && x.referenceUuid == u;
      assert x in t'.references;
    }
  }

  /** After `delete` no row of any table mentions the portfolio, and deleting it again changes nothing. */
  lemma DeleteForgetsThePortfolio(t: Tables, uuid: string)
    ensures var t' := DeletePortfolio(t, uuid);
      SelectByUuid(t', uuid) == None &&
      SelectReferenceUuids(t', uuid) == {} &&
      SelectProjects(t', uuid) == {} &&
      (forall q :: uuid !in SelectReferenceUuids(t', q)) &&
      DeletePortfolio(t', uuid) == t'
  {
    var t' := DeletePortfolio(t, uuid);
    forall x | x in t'.references
      ensures x.portfolioUuid != uuid && x.referenceUuid != uuid
    {
    }
    forall x | x in t'.projects
      ensures x.portfolioUuid != uuid
    {
    }
  }
}
