/**
 The backfill of draft projects for legacy sites: one pass over the sites in id order that
 classifies each and, when applying, inserts a project and links the two.

 Random project ids are the input `newIds`, one per site; the rows of other tenants and the
 columns the script never mentions are carried along untouched.
 */
module SiteBackfill {
  import opened Wrappers
  import Text
  import AuditChain

  type Uuid = nat

  datatype Site = Site(id: Uuid, tenant: Uuid, domain: Option<string>, locale: Option<string>,
                       niche: Option<string>, projectId: Option<Uuid>, release: string)

  datatype Project = Project(id: Uuid, tenant: Uuid, siteId: Option<Uuid>, name: string, slug: string,
                             domain: string, locale: string, niche: Option<string>, status: string)

  datatype Label =
    | InvalidLegacyData
    | DanglingSiteLink
    | AlreadyLinked
    | ConflictingSiteLink
    | ReverseLinkConflict
    | SlugConflict
    | WouldCreate
    | Created

  /** `site-` and the 32 hexadecimal digits of the id. */
  function ProjectSlug(id: Uuid): string {
    "site-" + Text.Hex(id, 32)
  }

  /** Different sites get different slugs. */
  lemma {:induction false} SlugInjective(a: Uuid, b: Uuid)
    requires a < Text.Power16(32) && b < Text.Power16(32) && ProjectSlug(a) == ProjectSlug(b)
    ensures a == b
  {
    assert ProjectSlug(a)[5..] == Text.Hex(a, 32);
    assert ProjectSlug(b)[5..] == Text.Hex(b, 32);
    Text.HexRoundTrip(a, 32);
    Text.HexRoundTrip(b, 32);
  }

  /** The id as it is printed: hexadecimal digits in groups of 8, 4, 4, 4 and 12. */
  function IdText(id: Uuid): string {
    var h := Text.Hex(id, 32);
    h[..8] + "-" + h[8..12] + "-" + h[12..16] + "-" + h[16..20] + "-" + h[20..]
  }

  function Locale(site: Site): string {
    Text.Strip(match site.locale case Some(l) => if l == "" then "ru" else l case None => "ru")
  }

  predicate Usable(site: Site) {
    site.domain.Some? && Text.Strip(site.domain.value) != "" && 1 <= |Locale(site)| <= 10
  }

  function FindProject(projects: seq<Project>, id: Uuid): (found: Option<Project>)
    ensures found.Some? ==> found.value in projects && found.value.id == id
    ensures found.None? ==> forall p :: p in projects ==> p.id != id
  {
    if |projects| == 0 then None
    else if projects[0].id == id then Some(projects[0])
    else FindProject(projects[1..], id)
  }

  predicate LinkedBack(projects: seq<Project>, site: Site) {
    exists p :: p in projects && p.siteId == Some(site.id)
  }

  predicate SlugTaken(projects: seq<Project>, site: Site) {
    exists p :: p in projects && p.tenant == site.tenant && p.slug == ProjectSlug(site.id)
  }

  /** What the script finds out about one site; `WouldCreate` if nothing stands in the way. */
  function Classify(projects: seq<Project>, site: Site): (found: Label)
    ensures found != Created
  {
    if !Usable(site) then InvalidLegacyData
    else if site.projectId.Some? then
      match FindProject(projects, site.projectId.value)
      case None => DanglingSiteLink
      case Some(p) =>
        if p.siteId == Some(site.id) && p.tenant == site.tenant then AlreadyLinked else ConflictingSiteLink
    else if LinkedBack(projects, site) then ReverseLinkConflict
    else if SlugTaken(projects, site) then SlugConflict
    else WouldCreate
  }

  function NewProject(site: Site, id: Uuid): Project
    requires Usable(site)
  {
    Project(id, site.tenant, Some(site.id), site.domain.value, ProjectSlug(site.id),
            site.domain.value, Locale(site), site.niche, "draft")
  }

  /** The columns of the draft project of a site. */
  ghost predicate IsDraftOf(p: Project, site: Site, id: Uuid) {
    && p.id == id && p.tenant == site.tenant && p.siteId == Some(site.id)
    && site.domain == Some(p.name) && p.domain == p.name && p.slug == "site-" + Text.Hex(site.id, 32)
    && p.locale == Text.Strip(if site.locale.None? || site.locale.value == "" then "ru" else site.locale.value)
    && p.niche == site.niche && p.status == "draft"
  }

  predicate Selected(tenant: Option<Uuid>, site: Site) {
    tenant.None? || tenant.value == site.tenant
  }

  /** Sites, projects, and the labels of the sites scanned so far. */
  datatype Db = Db(sites: seq<Site>, projects: seq<Project>)

  datatype Progress = Progress(db: Db, labels: seq<Label>)

  /** Scanning site `i`. */
  function Scan(db: Db, i: nat, apply: bool, tenant: Option<Uuid>, id: Uuid): Progress
    requires i < |db.sites|
  {
    var site := db.sites[i];
    if !Selected(tenant, site) then Progress(db, [])
    else
      var found := Classify(db.projects, site);
      if found == WouldCreate && apply then
        Progress(Db(db.sites[i := site.(projectId := Some(id))], db.projects + [NewProject(site, id)]), [Created])
      else Progress(db, [found])
  }

  /** One more site after `before`. */
  function Next(before: Progress, i: nat, apply: bool, tenant: Option<Uuid>, id: Uuid): Progress
    requires i < |before.db.sites|
  {
    var scanned := Scan(before.db, i, apply, tenant, id);
    Progress(scanned.db, before.labels + scanned.labels)
  }

  /** Scanning the first `n` sites in order. */
  function Run(db: Db, n: nat, apply: bool, tenant: Option<Uuid>, newIds: seq<Uuid>): (p: Progress)
    requires n <= |db.sites| == |newIds|
    ensures |p.db.sites| == |db.sites|
  {
    if n == 0 then Progress(db, [])
    else
      Next(Run(db, n - 1, apply, tenant, newIds), n - 1, apply, tenant, newIds[n - 1])
  }

  class Database {
    const sha: AuditChain.Sha
    var sites: seq<Site>
    var projects: seq<Project>
    var audit: seq<AuditChain.Entry>

    constructor (sha: AuditChain.Sha, sites: seq<Site>, projects: seq<Project>, audit: seq<AuditChain.Entry>)
      ensures this.sha == sha && this.sites == sites && this.projects == projects && this.audit == audit
    {
      this.sha := sha;
      this.sites := sites;
      this.projects := projects;
      this.audit := audit;
    }

    /**
     One run of the script. The new tables and the counts are those of `Run`; every created
     link adds one audit record, and the audit log reports exactly what it reported before.
     */
    method Backfill(apply: bool, tenant: Option<Uuid>, newIds: seq<Uuid>, auditId: nat)
      returns (counts: multiset<Label>)
      requires |newIds| == |sites|
      modifies this
      ensures var run := Run(Db(old(sites), old(projects)), |newIds|, apply, tenant, newIds);
              && sites == run.db.sites && projects == run.db.projects
              && counts == multiset(run.labels)
      ensures |audit| == |old(audit)| + counts[Created]
      ensures old(audit) <= audit
      ensures AuditChain.InvalidIds(sha, audit) == AuditChain.InvalidIds(sha, old(audit))
    {
      ghost var db := Db(sites, projects);
      ghost var labels: seq<Label> := [];
      counts := multiset{};
      for i := 0 to |newIds|
        invariant |sites| == |newIds|
        invariant Progress(Db(sites, projects), labels) == Run(db, i, apply, tenant, newIds)
        invariant counts == multiset(labels)
        invariant |audit| == |old(audit)| + counts[Created] && old(audit) <= audit
        invariant AuditChain.InvalidIds(sha, audit) == AuditChain.InvalidIds(sha, old(audit))
      {
        ghost var before := Progress(Db(sites, projects), labels);
        var found := ScanSite(i, apply, tenant, newIds[i], auditId + i);
        RunNext(db, i + 1, apply, tenant, newIds, before);
        counts := counts + multiset(found);
        labels := labels + found;
      }
    }

    /** The loop body: at most one label, and at most one creation, for site `i`. */
    method ScanSite(i: nat, apply: bool, tenant: Option<Uuid>, id: Uuid, auditId: nat) returns (found: seq<Label>)
      requires i < |sites|
      modifies this
      ensures Progress(Db(sites, projects), found) == Scan(Db(old(sites), old(projects)), i, apply, tenant, id)
      ensures |sites| == |old(sites)|
      ensures |audit| == |old(audit)| + multiset(found)[Created] && old(audit) <= audit
      ensures AuditChain.InvalidIds(sha, audit) == AuditChain.InvalidIds(sha, old(audit))
    {
      found := [];
      if Selected(tenant, sites[i]) {
        var verdict := Classify(projects, sites[i]);
        if verdict == WouldCreate && apply {
          CreateProject(i, id, auditId);
          verdict := Created;
        }
        found := [verdict];
      }
    }

    /** Inserts the draft project of site `i`, links the two and records it. */
    method CreateProject(i: nat, id: Uuid, auditId: nat)
      requires i < |sites| && Usable(sites[i])
      modifies this
      ensures sites == old(sites)[i := old(sites)[i].(projectId := Some(id))]
      ensures projects == old(projects) + [NewProject(old(sites)[i], id)]
      ensures IsDraftOf(projects[|old(projects)|], old(sites)[i], id)
      ensures |audit| == |old(audit)| + 1 && old(audit) <= audit
      ensures var e, site := audit[|old(audit)|], old(sites)[i];
              && e.action == "site_project_backfill.apply" && e.tenant == Some(site.tenant) && e.actor == None
              && e.payload == Some(LinkPayload(site, id))
              && AuditChain.Sealed(sha, audit, |old(audit)|)
      ensures AuditChain.InvalidIds(sha, audit) == AuditChain.InvalidIds(sha, old(audit))
    {
      var site := sites[i];
      projects := projects + [NewProject(site, id)];
      sites := sites[i := site.(projectId := Some(id))];
      var c := AuditChain.Content("site_project_backfill.apply", LinkPayload(site, id), Some(site.tenant), None);
      AuditChain.AppendedRowIsIntact(sha, audit, auditId, c);
      audit := audit + [AuditChain.NextEntry(sha, audit, auditId, c)];
    }
  }

  /** What is recorded about a new link. */
  function LinkPayload(site: Site, id: Uuid): AuditChain.Payload
    requires site.domain.Some?
  {
    map["site_id" := AuditChain.JStr(IdText(site.id)), "project_id" := AuditChain.JStr(IdText(id)),
        "slug" := AuditChain.JStr(ProjectSlug(site.id)), "domain" := AuditChain.JStr(site.domain.value),
        "mode" := AuditChain.JStr("apply")]
  }

  // ---------- what the database guarantees ----------

  /** Primary keys and unique constraints. */
  ghost predicate Constraints(db: Db) {
    && (forall i, j :: 0 <= i < j < |db.sites| ==> SitesApart(db.sites, i, j))
    && AllApart(db.projects)
  }

  /** Two sites differ in id, and in the project they point at if they point at one. */
  ghost predicate SitesApart(sites: seq<Site>, i: nat, j: nat)
    requires i < |sites| && j < |sites|
  {
    && sites[i].id != sites[j].id
    && (sites[i].projectId.Some? ==> sites[i].projectId != sites[j].projectId)
  }

  /** Two projects differ in id, in site if they have one, and in slug within a tenant. */
  ghost predicate Apart(p: Project, q: Project) {
    && p.id != q.id
    && (p.siteId.Some? ==> p.siteId != q.siteId)
    && (p.tenant != q.tenant || p.slug != q.slug)
  }

  ghost predicate ApartAt(projects: seq<Project>, i: nat, j: nat)
    requires i < |projects| && j < |projects|
  {
    Apart(projects[i], projects[j])
  }

  ghost predicate AllApart(projects: seq<Project>) {
    forall i, j :: 0 <= i < j < |projects| ==> ApartAt(projects, i, j)
  }

  /** Site ids are 128-bit values. */
  ghost predicate IdFits(site: Site) {
    site.id < Text.Power16(32)
  }

  /** A random id is new: no other random id, no project's, and not where any site already points. */
  ghost predicate FreshAt(db: Db, newIds: seq<Uuid>, i: nat)
    requires i < |newIds|
  {
    && (forall j :: 0 <= j < |newIds| && j != i ==> newIds[j] != newIds[i])
    && (forall p :: p in db.projects ==> p.id != newIds[i])
    && (forall j :: 0 <= j < |db.sites| ==> db.sites[j].projectId != Some(newIds[i]))
  }

  /** Everything the results assume about the starting database and the random ids. */
  ghost predicate Ready(db: Db, newIds: seq<Uuid>) {
    && Constraints(db)
    && |newIds| == |db.sites|
    && (forall i :: 0 <= i < |db.sites| ==> IdFits(db.sites[i]))
    && (forall i :: 0 <= i < |newIds| ==> FreshAt(db, newIds, i))
  }

  // ---------- creating for one site does not touch the others ----------

  /** A project that cannot change how `site` is classified. */
  ghost predicate Unrelated(p: Project, site: Site) {
    p.siteId != Some(site.id) && site.projectId != Some(p.id) && p.slug != ProjectSlug(site.id)
  }

  lemma {:induction false} FindUnrelated(projects: seq<Project>, more: seq<Project>, id: Uuid)
    requires forall p :: p in more ==> p.id != id
    ensures FindProject(projects + more, id) == FindProject(projects, id)
    decreases |projects|
  {
    if |projects| == 0 {
      assert projects + more == more;
      NotFound(more, id);
    } else {
      assert (projects + more)[1..] == projects[1..] + more;
      FindUnrelated(projects[1..], more, id);
    }
  }

  lemma {:induction false} NotFound(projects: seq<Project>, id: Uuid)
    requires forall p :: p in projects ==> p.id != id
    ensures FindProject(projects, id) == None
  {
    if |projects| != 0 {
      NotFound(projects[1..], id);
    }
  }

  /** Unrelated projects leave the verdict about a site as it is. */
  lemma {:induction false} ClassifyUnrelated(projects: seq<Project>, more: seq<Project>, site: Site)
    requires forall p :: p in more ==> Unrelated(p, site)
    ensures Classify(projects + more, site) == Classify(projects, site)
  {
    if site.projectId.Some? {
      FindUnrelated(projects, more, site.projectId.value);
    }
    assert forall p :: p in projects + more <==> p in projects || p in more;
  }

  // ---------- the closed form of an applying run ----------

  /** Site `i` gets a project. */
  ghost predicate Creates(db: Db, tenant: Option<Uuid>, i: nat)
    requires i < |db.sites|
  {
    Selected(tenant, db.sites[i]) && Classify(db.projects, db.sites[i]) == WouldCreate
  }

  /** The projects created for the first `n` sites, judged by the starting database alone. */
  ghost function Additions(db: Db, tenant: Option<Uuid>, n: nat, newIds: seq<Uuid>): seq<Project>
    requires n <= |db.sites| == |newIds|
  {
    if n == 0 then []
    else
      var before := Additions(db, tenant, n - 1, newIds);
      if Creates(db, tenant, n - 1) then before + [NewProject(db.sites[n - 1], newIds[n - 1])] else before
  }

  /** Site `i` after the run has passed it. */
  ghost function Linked(db: Db, tenant: Option<Uuid>, i: nat, newIds: seq<Uuid>): Site
    requires i < |db.sites| == |newIds|
  {
    if Creates(db, tenant, i) then db.sites[i].(projectId := Some(newIds[i])) else db.sites[i]
  }

  ghost function LinkedSites(db: Db, tenant: Option<Uuid>, n: nat, newIds: seq<Uuid>): seq<Site>
    requires n <= |db.sites| == |newIds|
  {
    seq(|db.sites|, i requires 0 <= i < |db.sites| => if i < n then Linked(db, tenant, i, newIds) else db.sites[i])
  }

  /** Every added project belongs to one created site. */
  lemma {:induction false} AdditionsAreNew(db: Db, tenant: Option<Uuid>, n: nat, newIds: seq<Uuid>, p: Project)
    returns (i: nat)
    requires n <= |db.sites| == |newIds| && p in Additions(db, tenant, n, newIds)
    ensures i < n && Creates(db, tenant, i) && p == NewProject(db.sites[i], newIds[i])
  {
    if Creates(db, tenant, n - 1) && p == NewProject(db.sites[n - 1], newIds[n - 1]) {
      i := n - 1;
    } else {
      i := AdditionsAreNew(db, tenant, n - 1, newIds, p);
    }
  }

  lemma {:induction false} AdditionsUnrelated(db: Db, tenant: Option<Uuid>, n: nat, newIds: seq<Uuid>, k: nat)
    requires Ready(db, newIds) && n <= k < |db.sites|
    ensures forall p :: p in Additions(db, tenant, n, newIds) ==> Unrelated(p, db.sites[k])
  {
    forall p | p in Additions(db, tenant, n, newIds) ensures Unrelated(p, db.sites[k]) {
      var i := AdditionsAreNew(db, tenant, n, newIds, p);
      SiteUnrelated(db, newIds, i, k);
    }
  }

  /** The project of one site is unrelated to any other site. */
  lemma {:induction false} SiteUnrelated(db: Db, newIds: seq<Uuid>, i: nat, k: nat)
    requires Ready(db, newIds) && i < |db.sites| && k < |db.sites| && i != k && Usable(db.sites[i])
    ensures Unrelated(NewProject(db.sites[i], newIds[i]), db.sites[k])
  {
    assert FreshAt(db, newIds, i);
    assert if i < k then SitesApart(db.sites, i, k) else SitesApart(db.sites, k, i);
    assert IdFits(db.sites[i]) && IdFits(db.sites[k]);
    if ProjectSlug(db.sites[i].id) == ProjectSlug(db.sites[k].id) {
      SlugInjective(db.sites[i].id, db.sites[k].id);
    }
  }

  /** Label `found` as the applying run reports it. */
  function Applied(found: Label): Label {
    if found == WouldCreate then Created else found
  }

  function AppliedAll(labels: seq<Label>): seq<Label>
  {
    seq(|labels|, i requires 0 <= i < |labels| => Applied(labels[i]))
  }

  /** The dry run changes nothing. */
  lemma {:induction false} DryRunChangesNothing(db: Db, n: nat, tenant: Option<Uuid>, newIds: seq<Uuid>)
    requires n <= |db.sites| == |newIds|
    ensures Run(db, n, false, tenant, newIds).db == db
    ensures Created !in Run(db, n, false, tenant, newIds).labels
  {
    if n > 0 {
      DryRunChangesNothing(db, n - 1, tenant, newIds);
    }
  }

  /** The database once the links of the first `n` sites are made, judged by the starting database alone. */
  ghost function Grown(db: Db, tenant: Option<Uuid>, n: nat, newIds: seq<Uuid>): (grown: Db)
    requires n <= |db.sites| == |newIds|
    ensures |grown.sites| == |db.sites|
  {
    Db(LinkedSites(db, tenant, n, newIds), db.projects + Additions(db, tenant, n, newIds))
  }

  /**
   The dry run predicts the applying run: label by label the same verdicts, `would_create`
   read as `created`; and the tables are the starting ones with exactly the predicted links.
   */
  lemma {:induction false} DryRunPredictsApply(db: Db, n: nat, tenant: Option<Uuid>, newIds: seq<Uuid>)
    requires Ready(db, newIds) && n <= |db.sites|
    ensures Run(db, n, true, tenant, newIds)
         == Progress(Grown(db, tenant, n, newIds), AppliedAll(Run(db, n, false, tenant, newIds).labels))
  {
    PredictedUpTo(db, n, tenant, newIds);
  }

  ghost predicate Predicted(db: Db, n: nat, tenant: Option<Uuid>, newIds: seq<Uuid>)
    requires Ready(db, newIds) && n <= |db.sites|
  {
    Run(db, n, true, tenant, newIds)
    == Progress(Grown(db, tenant, n, newIds), AppliedAll(Run(db, n, false, tenant, newIds).labels))
  }

  lemma {:induction false} PredictedUpTo(db: Db, n: nat, tenant: Option<Uuid>, newIds: seq<Uuid>)
    requires Ready(db, newIds) && n <= |db.sites|
    ensures Predicted(db, n, tenant, newIds)
  {
    if n == 0 {
      PredictedZero(db, tenant, newIds);
    } else {
      PredictedUpTo(db, n - 1, tenant, newIds);
      DryRunChangesNothing(db, n - 1, tenant, newIds);
      PredictedNext(db, n, tenant, newIds, Run(db, n - 1, false, tenant, newIds), Run(db, n - 1, true, tenant, newIds));
    }
  }

  lemma {:induction false} PredictedZero(db: Db, tenant: Option<Uuid>, newIds: seq<Uuid>)
    requires Ready(db, newIds)
    ensures Predicted(db, 0, tenant, newIds)
  {
    GrownZero(db, tenant, newIds);
    RunZero(db, true, tenant, newIds);
    RunZero(db, false, tenant, newIds);
  }

  lemma {:induction false} PredictedNext(db: Db, n: nat, tenant: Option<Uuid>, newIds: seq<Uuid>, dry: Progress,
                                         live: Progress)
    requires Ready(db, newIds) && 0 < n <= |db.sites|
    requires dry == Run(db, n - 1, false, tenant, newIds) && dry.db == db
    requires live == Run(db, n - 1, true, tenant, newIds)
          == Progress(Grown(db, tenant, n - 1, newIds), AppliedAll(dry.labels))
    ensures Predicted(db, n, tenant, newIds)
  {
    ScanPredicted(db, n - 1, tenant, newIds, dry, live);
  }

  lemma {:induction false} RunZero(db: Db, apply: bool, tenant: Option<Uuid>, newIds: seq<Uuid>)
    requires |db.sites| == |newIds|
    ensures Run(db, 0, apply, tenant, newIds) == Progress(db, [])
    ensures AppliedAll([]) == [] && RerunAll([]) == []
  {
  }

  lemma {:induction false} RunNext(db: Db, n: nat, apply: bool, tenant: Option<Uuid>, newIds: seq<Uuid>,
                                   before: Progress)
    requires 0 < n <= |db.sites| == |newIds| && before == Run(db, n - 1, apply, tenant, newIds)
    ensures Run(db, n, apply, tenant, newIds) == Next(before, n - 1, apply, tenant, newIds[n - 1])
  {
  }

  lemma {:induction false} GrownZero(db: Db, tenant: Option<Uuid>, newIds: seq<Uuid>)
    requires |db.sites| == |newIds|
    ensures Grown(db, tenant, 0, newIds) == db
  {
    assert db.projects + [] == db.projects;
    assert LinkedSites(db, tenant, 0, newIds) == db.sites;
  }

  lemma {:induction false} AppliedAppend(a: seq<Label>, b: seq<Label>)
    ensures AppliedAll(a + b) == AppliedAll(a) + AppliedAll(b)
  {
  }

  /** The links made before site `n` do not show when it is classified. */
  lemma {:induction false} ClassifyGrown(db: Db, n: nat, tenant: Option<Uuid>, newIds: seq<Uuid>)
    requires Ready(db, newIds) && n < |db.sites|
    ensures var grown := Grown(db, tenant, n, newIds);
            grown.sites[n] == db.sites[n] && Classify(grown.projects, db.sites[n]) == Classify(db.projects, db.sites[n])
  {
    AdditionsUnrelated(db, tenant, n, newIds, n);
    ClassifyUnrelated(db.projects, Additions(db, tenant, n, newIds), db.sites[n]);
  }

  /** Linking site `n` is the next growth step. */
  lemma {:induction false} GrownNext(db: Db, n: nat, tenant: Option<Uuid>, newIds: seq<Uuid>)
    requires n < |db.sites| == |newIds|
    ensures var grown, next := Grown(db, tenant, n, newIds), Grown(db, tenant, n + 1, newIds);
            next == if Creates(db, tenant, n)
                    then Db(grown.sites[n := db.sites[n].(projectId := Some(newIds[n]))],
                            grown.projects + [NewProject(db.sites[n], newIds[n])])
                    else grown
  {
    var grown, next := Grown(db, tenant, n, newIds), Grown(db, tenant, n + 1, newIds);
    if Creates(db, tenant, n) {
      assert next.sites == grown.sites[n := db.sites[n].(projectId := Some(newIds[n]))];
    } else {
      assert next.sites == grown.sites;
    }
  }

  /** One site of the applying run, predicted by the same site of the dry run. */
  lemma {:induction false} ScanPredicted(db: Db, n: nat, tenant: Option<Uuid>, newIds: seq<Uuid>, dry: Progress,
                                         live: Progress)
    requires Ready(db, newIds) && n < |db.sites|
    requires dry.db == db && live == Progress(Grown(db, tenant, n, newIds), AppliedAll(dry.labels))
    ensures Next(live, n, true, tenant, newIds[n])
         == Progress(Grown(db, tenant, n + 1, newIds), AppliedAll(Next(dry, n, false, tenant, newIds[n]).labels))
  {
    ClassifyGrown(db, n, tenant, newIds);
    GrownNext(db, n, tenant, newIds);
    AppliedAppend(dry.labels, Scan(db, n, false, tenant, newIds[n]).labels);
  }

  // ---------- after an applying run ----------

  /** The database an applying run leaves behind. */
  ghost function After(db: Db, tenant: Option<Uuid>, newIds: seq<Uuid>): Db
    requires |db.sites| == |newIds|
  {
    Grown(db, tenant, |newIds|, newIds)
  }

  lemma {:induction false} AdditionOf(db: Db, tenant: Option<Uuid>, n: nat, newIds: seq<Uuid>, i: nat)
    requires i < n <= |db.sites| == |newIds| && Creates(db, tenant, i)
    ensures NewProject(db.sites[i], newIds[i]) in Additions(db, tenant, n, newIds)
    decreases n
  {
    if i < n - 1 {
      AdditionOf(db, tenant, n - 1, newIds, i);
    }
  }

  lemma {:induction false} FindAppended(projects: seq<Project>, more: seq<Project>, p: Project)
    requires p in more && (forall q :: q in projects ==> q.id != p.id)
    requires forall q :: q in more && q.id == p.id ==> q == p
    ensures FindProject(projects + more, p.id) == Some(p)
    decreases |projects| + |more|
  {
    if |projects| > 0 {
      assert (projects + more)[1..] == projects[1..] + more;
      FindAppended(projects[1..], more, p);
    } else {
      assert projects + more == more;
      if more[0].id != p.id {
        assert [] + more[1..] == more[1..];
        FindAppended([], more[1..], p);
      }
    }
  }

  /** After an applying run a created site reads as linked, and every other verdict is what it was. */
  lemma {:induction false} VerdictAfter(db: Db, tenant: Option<Uuid>, newIds: seq<Uuid>, k: nat)
    requires Ready(db, newIds) && k < |db.sites|
    ensures var after := After(db, tenant, newIds);
            Classify(after.projects, after.sites[k])
            == if Creates(db, tenant, k) then AlreadyLinked else Classify(db.projects, db.sites[k])
  {
    var added := Additions(db, tenant, |newIds|, newIds);
    if Creates(db, tenant, k) {
      var p := NewProject(db.sites[k], newIds[k]);
      AdditionOf(db, tenant, |newIds|, newIds, k);
      forall q | q in added && q.id == p.id ensures q == p {
        var i := AdditionsAreNew(db, tenant, |newIds|, newIds, q);
        assert FreshAt(db, newIds, i);
      }
      assert FreshAt(db, newIds, k);
      FindAppended(db.projects, added, p);
    } else {
      forall q | q in added ensures Unrelated(q, db.sites[k]) {
        var i := AdditionsAreNew(db, tenant, |newIds|, newIds, q);
        SiteUnrelated(db, newIds, i, k);
      }
      ClassifyUnrelated(db.projects, added, db.sites[k]);
    }
  }

  /** Label `found` of a first applying run as a second one reports it. */
  function Rerun(found: Label): Label {
    if found == Created then AlreadyLinked else found
  }

  function RerunAll(labels: seq<Label>): seq<Label>
  {
    seq(|labels|, i requires 0 <= i < |labels| => Rerun(labels[i]))
  }

  lemma {:induction false} RerunAppend(a: seq<Label>, b: seq<Label>)
    ensures RerunAll(a + b) == RerunAll(a) + RerunAll(b)
  {
  }

  /** Site `k` of `after` reads as it does after an applying run on `db`. */
  ghost predicate LinkedAt(db: Db, after: Db, tenant: Option<Uuid>, k: nat)
    requires k < |db.sites| == |after.sites|
  {
    && after.sites[k].tenant == db.sites[k].tenant
    && Classify(after.projects, after.sites[k])
       == if Creates(db, tenant, k) then AlreadyLinked else Classify(db.projects, db.sites[k])
  }

  /** A second run scans a site whose link, if it was to be created, exists. */
  lemma {:induction false} SecondScan(db: Db, after: Db, k: nat, tenant: Option<Uuid>, newId: Uuid, otherId: Uuid,
                   dry: Progress, second: Progress)
    requires k < |db.sites| == |after.sites| && LinkedAt(db, after, tenant, k)
    requires dry.db == db && second == Progress(after, RerunAll(AppliedAll(dry.labels)))
    ensures Next(second, k, true, tenant, otherId)
         == Progress(after, RerunAll(AppliedAll(Next(dry, k, false, tenant, newId).labels)))
  {
    var found := Scan(db, k, false, tenant, newId).labels;
    AppliedAppend(dry.labels, found);
    RerunAppend(AppliedAll(dry.labels), AppliedAll(found));
  }

  lemma {:induction false} SecondRunOver(db: Db, after: Db, n: nat, tenant: Option<Uuid>, newIds: seq<Uuid>,
                                        otherIds: seq<Uuid>)
    requires n <= |db.sites| == |after.sites| == |newIds| == |otherIds|
    requires forall k :: 0 <= k < |db.sites| ==> LinkedAt(db, after, tenant, k)
    ensures Run(after, n, true, tenant, otherIds)
         == Progress(after, RerunAll(AppliedAll(Run(db, n, false, tenant, newIds).labels)))
  {
    if n == 0 {
      RunZero(after, true, tenant, otherIds);
      RunZero(db, false, tenant, newIds);
    } else {
      SecondRunOver(db, after, n - 1, tenant, newIds, otherIds);
      DryRunChangesNothing(db, n - 1, tenant, newIds);
      var dry, second := Run(db, n - 1, false, tenant, newIds), Run(after, n - 1, true, tenant, otherIds);
      assert LinkedAt(db, after, tenant, n - 1);
      SecondScan(db, after, n - 1, tenant, newIds[n - 1], otherIds[n - 1], dry, second);
      RunNext(after, n, true, tenant, otherIds, second);
      RunNext(db, n, false, tenant, newIds, dry);
    }
  }

  /**
   A second applying run over the same selection creates nothing and changes nothing; its
   counts differ only in `created` having moved into `already_linked`.
   */
  lemma {:induction false} SecondRunCreatesNothing(db: Db, n: nat, tenant: Option<Uuid>, newIds: seq<Uuid>,
                                                   otherIds: seq<Uuid>)
    requires Ready(db, newIds) && |otherIds| == |db.sites| && n <= |db.sites|
    ensures Run(After(db, tenant, newIds), n, true, tenant, otherIds)
         == Progress(After(db, tenant, newIds), RerunAll(AppliedAll(Run(db, n, false, tenant, newIds).labels)))
  {
    var after := After(db, tenant, newIds);
    forall k | 0 <= k < |db.sites| ensures LinkedAt(db, after, tenant, k) {
      VerdictAfter(db, tenant, newIds, k);
    }
    SecondRunOver(db, after, n, tenant, newIds, otherIds);
  }

  /** What the counts of a dry run, an applying run and a second applying run have to do with each other. */
  ghost predicate Agree(dry: multiset<Label>, live: multiset<Label>, again: multiset<Label>) {
    && live[Created] == dry[WouldCreate] && live[WouldCreate] == 0
    && again[AlreadyLinked] == live[AlreadyLinked] + live[Created]
    && again[Created] == 0 && again[WouldCreate] == 0
    && (forall l :: l !in {Created, WouldCreate} ==> live[l] == dry[l])
    && (forall l :: l !in {Created, WouldCreate, AlreadyLinked} ==> again[l] == live[l])
  }

  lemma {:induction false} AgreeTogether(dry: multiset<Label>, live: multiset<Label>, again: multiset<Label>,
                                         found: Label)
    requires found != Created && Agree(dry, live, again)
    ensures Agree(dry + multiset{found}, live + multiset{Applied(found)}, again + multiset{Rerun(Applied(found))})
  {
  }

  lemma {:induction false} LabelsAgree(labels: seq<Label>)
    requires Created !in labels
    ensures Agree(multiset(labels), multiset(AppliedAll(labels)), multiset(RerunAll(AppliedAll(labels))))
    decreases |labels|
  {
    if |labels| != 0 {
      var n := |labels| - 1;
      var front, found := labels[..n], labels[n];
      LabelsAgree(front);
      AgreeTogether(multiset(front), multiset(AppliedAll(front)), multiset(RerunAll(AppliedAll(front))), found);
      assert labels == front + [found];
      assert AppliedAll(labels) == AppliedAll(front) + [Applied(found)];
      assert RerunAll(AppliedAll(labels)) == RerunAll(AppliedAll(front)) + [Rerun(Applied(found))];
    }
  }

  /**
   The counts of three runs over any database: the dry run's, with `would_create` read as
   `created`, are the applying run's; a second applying run has them again, with `created`
   moved into `already_linked`.
   */
  lemma {:induction false} CountsAgree(db: Db, tenant: Option<Uuid>, newIds: seq<Uuid>, otherIds: seq<Uuid>)
    requires Ready(db, newIds) && |otherIds| == |db.sites|
    ensures var n := |db.sites|;
            var live := Run(db, n, true, tenant, newIds);
            Agree(multiset(Run(db, n, false, tenant, newIds).labels), multiset(live.labels),
                  multiset(Run(live.db, n, true, tenant, otherIds).labels))
  {
    var n := |db.sites|;
    DryRunPredictsApply(db, n, tenant, newIds);
    DryRunChangesNothing(db, n, tenant, newIds);
    SecondRunCreatesNothing(db, n, tenant, newIds, otherIds);
    LabelsAgree(Run(db, n, false, tenant, newIds).labels);
  }

  // ---------- what an applying run keeps ----------

  /** Site and project point at each other. */
  ghost predicate Reciprocal(db: Db, i: nat, p: Project)
    requires i < |db.sites|
  {
    p in db.projects && db.sites[i].projectId == Some(p.id) && p.siteId == Some(db.sites[i].id)
  }

  /** No existing row changes: projects keep their place, sites keep everything but an absent link. */
  lemma {:induction false} ExistingRowsKept(db: Db, tenant: Option<Uuid>, newIds: seq<Uuid>)
    requires |db.sites| == |newIds|
    ensures var after := After(db, tenant, newIds);
            && db.projects <= after.projects
            && |after.sites| == |db.sites|
            && (forall i :: 0 <= i < |db.sites| ==> after.sites[i].(projectId := db.sites[i].projectId) == db.sites[i])
            && (forall i :: 0 <= i < |db.sites| && after.sites[i] != db.sites[i] ==>
                  db.sites[i].projectId == None && Selected(tenant, db.sites[i]))
  {
  }

  /** The reciprocal links afterwards are the old ones and one new link per created site. */
  lemma {:induction false} LinksGrowByCreated(db: Db, tenant: Option<Uuid>, newIds: seq<Uuid>, i: nat, p: Project)
    requires Ready(db, newIds) && i < |db.sites|
    ensures Reciprocal(After(db, tenant, newIds), i, p)
       <==> Reciprocal(db, i, p) || (Creates(db, tenant, i) && p == NewProject(db.sites[i], newIds[i]))
  {
    var after := After(db, tenant, newIds);
    var added := Additions(db, tenant, |newIds|, newIds);
    if Creates(db, tenant, i) {
      AdditionOf(db, tenant, |newIds|, newIds, i);
    }
    if p in added {
      var j := AdditionsAreNew(db, tenant, |newIds|, newIds, p);
      if j != i { SiteUnrelated(db, newIds, j, i); }
    }
  }

  /** The inserted rows meet every unique constraint. */
  lemma {:induction false} ConstraintsKept(db: Db, tenant: Option<Uuid>, newIds: seq<Uuid>)
    requires Ready(db, newIds)
    ensures Constraints(After(db, tenant, newIds))
  {
    var after := After(db, tenant, newIds);
    AdditionsApart(db, tenant, |newIds|, newIds);
    forall i, j | 0 <= i < j < |db.sites| ensures SitesApart(after.sites, i, j) {
      assert SitesApart(db.sites, i, j) && FreshAt(db, newIds, i) && FreshAt(db, newIds, j);
    }
  }

  lemma {:induction false} AdditionsApart(db: Db, tenant: Option<Uuid>, n: nat, newIds: seq<Uuid>)
    requires Ready(db, newIds) && n <= |db.sites|
    ensures AllApart(db.projects + Additions(db, tenant, n, newIds))
  {
    if n == 0 {
      assert db.projects + [] == db.projects;
    } else {
      AdditionsApart(db, tenant, n - 1, newIds);
      if Creates(db, tenant, n - 1) {
        var added := Additions(db, tenant, n - 1, newIds);
        var p := NewProject(db.sites[n - 1], newIds[n - 1]);
        forall q | q in db.projects + added ensures Apart(q, p) {
          NewcomerApart(db, tenant, n - 1, newIds, q);
        }
        ApartAppend(db.projects + added, p);
        assert db.projects + (added + [p]) == db.projects + added + [p];
      }
    }
  }

  lemma {:induction false} ApartAppend(projects: seq<Project>, p: Project)
    requires AllApart(projects) && forall q :: q in projects ==> Apart(q, p)
    ensures AllApart(projects + [p])
  {
    forall i, j | 0 <= i < j < |projects| + 1 ensures ApartAt(projects + [p], i, j) {
      if j < |projects| {
        assert ApartAt(projects, i, j);
      } else {
        assert projects[i] in projects;
      }
    }
  }

  lemma {:induction false} NewcomerApart(db: Db, tenant: Option<Uuid>, n: nat, newIds: seq<Uuid>, q: Project)
    requires Ready(db, newIds) && n < |db.sites| && Creates(db, tenant, n)
    requires q in db.projects || q in Additions(db, tenant, n, newIds)
    ensures Apart(q, NewProject(db.sites[n], newIds[n]))
  {
    if q in db.projects {
      assert !LinkedBack(db.projects, db.sites[n]) && !SlugTaken(db.projects, db.sites[n]);
      assert FreshAt(db, newIds, n);
    } else {
      var i := AdditionsAreNew(db, tenant, n, newIds, q);
      SiteUnrelated(db, newIds, i, n);
      assert FreshAt(db, newIds, i);
    }
  }

  // ---------- whom a run touches ----------

  /** The sites of one tenant, or all sites, among the first `n`. */
  ghost function SitesOf(sites: seq<Site>, tenant: Option<Uuid>, n: nat): set<nat>
    requires n <= |sites|
  {
    set i | 0 <= i < n && (tenant.Some? ==> sites[i].tenant == tenant.value)
  }

  lemma {:induction false} RunKeepsTenant(db: Db, n: nat, apply: bool, tenant: Option<Uuid>, newIds: seq<Uuid>, i: nat)
    requires n <= |db.sites| == |newIds| && i < |db.sites|
    ensures Run(db, n, apply, tenant, newIds).db.sites[i].tenant == db.sites[i].tenant
  {
    if n > 0 {
      RunKeepsTenant(db, n - 1, apply, tenant, newIds, i);
    }
  }

  lemma {:induction false} SitesOfNext(sites: seq<Site>, tenant: Option<Uuid>, n: nat)
    requires n < |sites|
    ensures |SitesOf(sites, tenant, n + 1)|
         == |SitesOf(sites, tenant, n)| + if tenant.Some? && sites[n].tenant != tenant.value then 0 else 1
  {
    var before := SitesOf(sites, tenant, n);
    assert SitesOf(sites, tenant, n + 1)
        == if tenant.Some? && sites[n].tenant != tenant.value then before else before + {n};
  }

  lemma {:induction false} OneMoreLabel(before: Progress, i: nat, apply: bool, tenant: Option<Uuid>, id: Uuid)
    requires i < |before.db.sites|
    ensures |Next(before, i, apply, tenant, id).labels|
         == |before.labels| + if tenant.Some? && before.db.sites[i].tenant != tenant.value then 0 else 1
  {
  }

  /** A run reports one label for every site of its tenant, or for every site, and no other. */
  lemma {:induction false} OneLabelPerSite(db: Db, n: nat, apply: bool, tenant: Option<Uuid>, newIds: seq<Uuid>)
    requires n <= |db.sites| == |newIds|
    ensures |Run(db, n, apply, tenant, newIds).labels| == |SitesOf(db.sites, tenant, n)|
  {
    if n > 0 {
      OneLabelPerSite(db, n - 1, apply, tenant, newIds);
      RunKeepsTenant(db, n - 1, apply, tenant, newIds, n - 1);
      OneMoreLabel(Run(db, n - 1, apply, tenant, newIds), n - 1, apply, tenant, newIds[n - 1]);
      SitesOfNext(db.sites, tenant, n - 1);
    }
  }

  /** The site may be given a project: nothing is wrong with it, nothing points at it, and its slug is free. */
  ghost predicate MayBeLinked(db: Db, site: Site) {
    && site.domain.Some? && Text.Strip(site.domain.value) != ""
    && 1 <= |Text.Strip(if site.locale.None? || site.locale.value == "" then "ru" else site.locale.value)| <= 10
    && site.projectId == None
    && (forall p :: p in db.projects ==> p.siteId != Some(site.id))
    && (forall p :: p in db.projects && p.tenant == site.tenant ==> p.slug != "site-" + Text.Hex(site.id, 32))
  }

  /** The run is for all tenants or for the site's. */
  lemma {:induction false} CreatesIff(db: Db, tenant: Option<Uuid>, i: nat)
    requires i < |db.sites|
    ensures Creates(db, tenant, i)
       <==> MayBeLinked(db, db.sites[i]) && (tenant.Some? ==> db.sites[i].tenant == tenant.value)
  {
  }

  /** Exactly the sites of the run's tenant that may be linked end linked to a draft of their own; all others stay. */
  lemma {:induction false} LinkedIffAllowed(db: Db, tenant: Option<Uuid>, newIds: seq<Uuid>, i: nat)
    requires Ready(db, newIds) && i < |db.sites|
    ensures var after, site := Run(db, |newIds|, true, tenant, newIds).db, db.sites[i];
            if MayBeLinked(db, site) && (tenant.Some? ==> site.tenant == tenant.value) then
              && after.sites[i] == site.(projectId := Some(newIds[i]))
              && exists p :: p in after.projects && IsDraftOf(p, site, newIds[i])
            else after.sites[i] == site
  {
    DryRunPredictsApply(db, |newIds|, tenant, newIds);
    CreatesIff(db, tenant, i);
    if Creates(db, tenant, i) {
      AdditionOf(db, tenant, |newIds|, newIds, i);
      assert IsDraftOf(NewProject(db.sites[i], newIds[i]), db.sites[i], newIds[i]);
    }
  }

  lemma {:induction false} RunAddsThese(db: Db, tenant: Option<Uuid>, newIds: seq<Uuid>)
    requires Ready(db, newIds)
    ensures Run(db, |newIds|, true, tenant, newIds).db.projects
         == db.projects + Additions(db, tenant, |newIds|, newIds)
  {
    DryRunPredictsApply(db, |newIds|, tenant, newIds);
  }

  /** Existing projects stay in place, and every added one is the draft of a site of the run's tenant. */
  lemma {:induction false} AddedAreDrafts(db: Db, tenant: Option<Uuid>, newIds: seq<Uuid>, k: nat) returns (i: nat)
    requires Ready(db, newIds)
    requires |db.projects| <= k < |Run(db, |newIds|, true, tenant, newIds).db.projects|
    ensures var after := Run(db, |newIds|, true, tenant, newIds).db;
            && db.projects <= after.projects && i < |db.sites|
            && IsDraftOf(after.projects[k], db.sites[i], newIds[i])
            && (tenant.Some? ==> after.projects[k].tenant == tenant.value)
  {
    var added := Additions(db, tenant, |newIds|, newIds);
    RunAddsThese(db, tenant, newIds);
    i := AdditionsAreNew(db, tenant, |newIds|, newIds, added[k - |db.projects|]);
  }

  /** What each label of a dry run says about its site, when project ids are distinct. */
  lemma {:induction false} LabelsMean(db: Db, site: Site)
    requires AllApart(db.projects)
    ensures var found := Classify(db.projects, site);
            var usable := found != InvalidLegacyData;
            && (usable <==> site.domain.Some? && Text.Strip(site.domain.value) != "" && 1 <= |Locale(site)| <= 10)
            && (found == WouldCreate <==> MayBeLinked(db, site))
            && (found == AlreadyLinked <==>
                  usable && exists p :: p in db.projects && LinkIs(site, p) && OwnedBy(p, site))
            && (found == ConflictingSiteLink <==>
                  usable && exists p :: p in db.projects && LinkIs(site, p) && !OwnedBy(p, site))
            && (found == DanglingSiteLink <==>
                  usable && site.projectId.Some? && forall p :: p in db.projects ==> !LinkIs(site, p))
            && (found == ReverseLinkConflict <==>
                  usable && site.projectId == None && exists p :: p in db.projects && p.siteId == Some(site.id))
  {
    if site.projectId.Some? {
      ProjectById(db.projects, site.projectId.value);
    }
  }

  ghost predicate LinkIs(site: Site, p: Project) {
    site.projectId == Some(p.id)
  }

  ghost predicate OwnedBy(p: Project, site: Site) {
    p.siteId == Some(site.id) && p.tenant == site.tenant
  }

  lemma {:induction false} ProjectById(projects: seq<Project>, id: Uuid)
    requires AllApart(projects)
    ensures forall p, q :: p in projects && q in projects && p.id == q.id ==> p == q
  {
    forall p, q | p in projects && q in projects && p.id == q.id ensures p == q {
      var i :| 0 <= i < |projects| && projects[i] == p;
      var j :| 0 <= j < |projects| && projects[j] == q;
      assert i < j ==> ApartAt(projects, i, j);
      assert j < i ==> ApartAt(projects, j, i);
    }
  }
}
