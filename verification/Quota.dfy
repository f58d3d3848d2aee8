/** Storage quotas (store/quota.go, and resolveRepoForWrite in api/uploads.go).

    A blob counts once in every organization that links it. An organization with
    a limit of its own is governed by that limit alone; every other one counts in
    the pools of all its owners. Pushes and mounts are serial: nothing in the
    store locks two quota checks against each other. */
module Quota {
  import opened Wrappers

  type Digest = string
  type Repo = nat
  type Org = nat
  type User = nat

  datatype Link = Link(repo: Repo, digest: Digest)
  datatype Counted = Counted(org: Org, digest: Digest)

  /** The tables the two usage sums read. A digest has one size: it names one
      content. */
  datatype Tables = Tables(
    links: set<Link>, orgOf: map<Repo, Org>, size: Digest -> nat,
    orgLimit: map<Org, int>, owners: set<(Org, User)>, userLimit: map<User, int>)

  // ---- The usage sums ----

  /** Which digests count, and in which organization. */
  function AllCounted(t: Tables): set<Counted> {
    set l | l in t.links && l.repo in t.orgOf :: Counted(t.orgOf[l.repo], l.digest)
  }

  predicate InOrg(org: Org, c: Counted) { c.org == org }

  /** Counted in an owner's pool: in an organization of theirs without a limit. */
  predicate InPool(t: Tables, user: User, c: Counted) {
    (c.org, user) in t.owners && c.org !in t.orgLimit
  }

  ghost function Sum(cs: set<Counted>, size: Digest -> nat): nat
  {
    if cs == {} then 0
    else var c :| c in cs; size(c.digest) + Sum(cs - {c}, size)
  }

  function OfOrg(t: Tables, org: Org): set<Counted> {
    set c | c in AllCounted(t) && InOrg(org, c)
  }

  function OfPool(t: Tables, user: User): set<Counted> {
    set c | c in AllCounted(t) && InPool(t, user, c)
  }

  ghost function OrgUsed(t: Tables, org: Org): nat {
    Sum(OfOrg(t, org), t.size)
  }

  ghost function OwnerUsed(t: Tables, user: User): nat {
    Sum(OfPool(t, user), t.size)
  }

  lemma {:induction false} SumRemove(cs: set<Counted>, c: Counted, size: Digest -> nat)
    requires c in cs
    ensures Sum(cs, size) == size(c.digest) + Sum(cs - {c}, size)
  {
    var d :| d in cs && Sum(cs, size) == size(d.digest) + Sum(cs - {d}, size);
    if d != c {
      SumRemove(cs - {d}, c, size);
      SumRemove(cs - {c}, d, size);
      assert cs - {d} - {c} == cs - {c} - {d};
    }
  }

  lemma SumAdd(cs: set<Counted>, c: Counted, size: Digest -> nat)
    ensures Sum(cs + {c}, size) == Sum(cs, size) + if c in cs then 0 else size(c.digest)
  {
    if c in cs {
      assert cs + {c} == cs;
    } else {
      SumRemove(cs + {c}, c, size);
      assert cs + {c} - {c} == cs;
    }
  }

  lemma {:induction false} SumOfSubset(as_: set<Counted>, bs: set<Counted>, size: Digest -> nat)
    requires as_ <= bs
    ensures Sum(as_, size) <= Sum(bs, size)
    decreases |bs|
  {
    if as_ != bs {
      var c :| c in bs && c !in as_;
      SumRemove(bs, c, size);
      SumOfSubset(as_, bs - {c}, size);
    }
  }

  // ---- The check ----

  datatype Scope = Organization | Owner
  datatype QuotaError = QuotaError(scope: Scope, used: int, limit: int)

  /** Why a write is refused. A name that has moved is never created again. */
  datatype Denial = Moved | NoOrganization | TooManyRepositories | OverStorage(err: QuotaError)

  /** What stands in the way of creating a missing repository. */
  datatype Creation = Creation(moved: bool, orgExists: bool, underRepoQuota: bool)

  /** What the check promises: the scopes that govern the organization have room. */
  ghost predicate HasRoom(t: Tables, org: Org, additional: nat) {
    if org in t.orgLimit then OrgUsed(t, org) + additional <= t.orgLimit[org]
    else forall u :: (org, u) in t.owners && u in t.userLimit ==> OwnerUsed(t, u) + additional <= t.userLimit[u]
  }

  predicate OrgHasBlob(t: Tables, org: Org, digest: Digest) {
    exists l :: l in t.links && l.repo in t.orgOf && t.orgOf[l.repo] == org && l.digest == digest
  }

  lemma OrgHasBlobMeansCounted(t: Tables, org: Org, digest: Digest)
    ensures OrgHasBlob(t, org, digest) <==> Counted(org, digest) in AllCounted(t)
  {
  }

  function TargetOrg(t: Tables, repo: Repo, org: Org): Org {
    if repo in t.orgOf then t.orgOf[repo] else org
  }

  /** The write is let through: the content is counted already, or it fits. */
  ghost predicate Accepts(t: Tables, repo: Repo, org: Org, digest: Digest, additional: nat) {
    OrgHasBlob(t, TargetOrg(t, repo, org), digest) || HasRoom(t, TargetOrg(t, repo, org), additional)
  }

  function WithRepo(t: Tables, repo: Repo, org: Org): Tables {
    t.(orgOf := t.orgOf[repo := TargetOrg(t, repo, org)])
  }

  function WithLink(t: Tables, repo: Repo, org: Org, digest: Digest): Tables {
    WithRepo(t, repo, org).(links := t.links + {Link(repo, digest)})
  }

  /** Links only name repositories that exist. */
  predicate WellFormed(t: Tables) {
    forall l :: l in t.links ==> l.repo in t.orgOf
  }

  class Store {
    var t: Tables

    constructor (t: Tables)
      ensures this.t == t
    {
      this.t := t;
    }

    /** One of the two sums, row by row. */
    method SumSizes(rows: set<Counted>) returns (used: nat)
      ensures used == Sum(rows, t.size)
    {
      used := 0;
      var left := rows;
      while left != {}
        invariant Sum(rows, t.size) == used + Sum(left, t.size)
      {
        var c :| c in left;
        SumRemove(left, c, t.size);
        used := used + t.size(c.digest);
        left := left - {c};
      }
    }

    /** The organization's own limit, or each limited owner's account. An error
        names a scope that governs the organization and would overflow. */
    method CheckStorageQuota(org: Org, additional: nat) returns (err: Option<QuotaError>)
      ensures err.None? <==> HasRoom(t, org, additional)
      ensures err.Some? ==> err.value.used + additional > err.value.limit
      ensures err.Some? && err.value.scope.Organization? ==>
                org in t.orgLimit && err.value.limit == t.orgLimit[org] && err.value.used == OrgUsed(t, org)
      ensures err.Some? && err.value.scope.Owner? ==>
                org !in t.orgLimit
                && exists u :: (org, u) in t.owners && u in t.userLimit
                               && err.value.limit == t.userLimit[u] && err.value.used == OwnerUsed(t, u)
    {
      if org in t.orgLimit {
        var used := SumSizes(OfOrg(t, org));
        if used + additional > t.orgLimit[org] {
          return Some(QuotaError(Organization, used, t.orgLimit[org]));
        }
        return None;
      }
      var owners := set o | o in t.owners && o.0 == org && o.1 in t.userLimit :: o.1;
      var left := owners;
      while left != {}
        invariant left <= owners
        invariant forall u :: u in owners && u !in left ==> OwnerUsed(t, u) + additional <= t.userLimit[u]
      {
        var u :| u in left;
        var used := SumSizes(OfPool(t, u));
        if used + additional > t.userLimit[u] {
          assert (org, u) in t.owners && u in t.userLimit;
          return Some(QuotaError(Owner, used, t.userLimit[u]));
        }
        left := left - {u};
      }
      assert forall u :: (org, u) in t.owners && u in t.userLimit ==> u in owners;
      return None;
    }

    /** The repository to write to, created only after everything let it through. */
    method ResolveRepoForWrite(repo: Repo, org: Org, digest: Digest, additional: nat, creation: Creation)
      returns (denial: Option<Denial>)
      modifies this
      ensures denial.None? <==>
                && (repo in old(t).orgOf || (!creation.moved && creation.orgExists && creation.underRepoQuota))
                && Accepts(old(t), repo, org, digest, additional)
      ensures t == if denial.None? then WithRepo(old(t), repo, org) else old(t)
      ensures denial.Some? ==>
                match denial.value
                case OverStorage(err) => err.used + additional > err.limit
                case Moved => repo !in t.orgOf && creation.moved
                case NoOrganization => repo !in t.orgOf && !creation.orgExists
                case TooManyRepositories => repo !in t.orgOf && !creation.underRepoQuota
    {
      var target := TargetOrg(t, repo, org);
      if repo !in t.orgOf {
        if creation.moved { return Some(Moved); }
        if !creation.orgExists { return Some(NoOrganization); }
        if !creation.underRepoQuota { return Some(TooManyRepositories); }
      }
      if !OrgHasBlob(t, target, digest) {
        var err := CheckStorageQuota(target, additional);
        if err.Some? { return Some(OverStorage(err.value)); }
      }
      t := WithRepo(t, repo, org);
      denial := None;
    }

    /** A blob commit or a mount, as far as usage goes. */
    method Push(repo: Repo, org: Org, digest: Digest, creation: Creation) returns (denial: Option<Denial>)
      modifies this
      ensures t == Step(old(t), PushBlob(repo, org, digest, creation))
      ensures denial.None? <==>
                && (repo in old(t).orgOf || (!creation.moved && creation.orgExists && creation.underRepoQuota))
                && Accepts(old(t), repo, org, digest, old(t).size(digest))
      ensures t.links == if denial.None? then old(t).links + {Link(repo, digest)} else old(t).links
    {
      denial := ResolveRepoForWrite(repo, org, digest, t.size(digest), creation);
      if denial.None? {
        t := t.(links := t.links + {Link(repo, digest)});
      }
    }

    /** A manifest push asks for no more room, but may create the repository. */
    method PushManifest(repo: Repo, org: Org, digest: Digest, creation: Creation) returns (denial: Option<Denial>)
      modifies this
      ensures t == Step(old(t), CreateFor(repo, org, digest, creation))
      ensures denial.None? <==>
                && (repo in old(t).orgOf || (!creation.moved && creation.orgExists && creation.underRepoQuota))
                && Accepts(old(t), repo, org, digest, 0)
      ensures t.links == old(t).links
    {
      denial := ResolveRepoForWrite(repo, org, digest, 0, creation);
    }
  }

  /** The whole decision: the repository is there or can be, and there is room. */
  ghost predicate Lets(t: Tables, repo: Repo, org: Org, digest: Digest, additional: nat, creation: Creation) {
    && (repo in t.orgOf || (!creation.moved && creation.orgExists && creation.underRepoQuota))
    && Accepts(t, repo, org, digest, additional)
  }

  // ---- Runs ----

  /** `Unlink` is a blob delete's or a collection's effect on usage. */
  datatype Action =
    | PushBlob(repo: Repo, org: Org, digest: Digest, creation: Creation)
    | CreateFor(repo: Repo, org: Org, digest: Digest, creation: Creation)
    | Unlink(gone: set<Link>)

  ghost function Step(t: Tables, a: Action): Tables {
    match a
    case PushBlob(repo, org, d, c) => if Lets(t, repo, org, d, t.size(d), c) then WithLink(t, repo, org, d) else t
    case CreateFor(repo, org, d, c) => if Lets(t, repo, org, d, 0, c) then WithRepo(t, repo, org) else t
    case Unlink(gone) => t.(links := t.links - gone)
  }

  ghost function Run(t: Tables, trace: seq<Action>): Tables
    decreases |trace|
  {
    if trace == [] then t else Run(Step(t, trace[0]), trace[1..])
  }

  lemma LinkCounts(t: Tables, repo: Repo, org: Org, digest: Digest)
    requires WellFormed(t)
    ensures AllCounted(WithRepo(t, repo, org)) == AllCounted(t)
    ensures AllCounted(WithLink(t, repo, org, digest))
         == AllCounted(t) + {Counted(TargetOrg(t, repo, org), digest)}
  {
    var u := WithLink(t, repo, org, digest);
    forall c | c in AllCounted(t) ensures c in AllCounted(u) && c in AllCounted(WithRepo(t, repo, org)) {
      var l :| l in t.links && l.repo in t.orgOf && c == Counted(t.orgOf[l.repo], l.digest);
      assert l in u.links && u.orgOf[l.repo] == t.orgOf[l.repo];
    }
    assert Link(repo, digest) in u.links;
  }

  /** A link adds its blob's size to its organization, once, and to the pools of
      the owners exactly when the organization has no limit of its own. */
  lemma LinkAddsOnce(t: Tables, repo: Repo, org: Org, digest: Digest)
    requires WellFormed(t)
    ensures var u, target := WithLink(t, repo, org, digest), TargetOrg(t, repo, org);
            var new_ := if OrgHasBlob(t, target, digest) then 0 else t.size(digest);
            && (forall o: Org :: OrgUsed(u, o) == OrgUsed(t, o) + if o == target then new_ else 0)
            && (forall x: User :: OwnerUsed(u, x) ==
                  OwnerUsed(t, x) + if (target, x) in t.owners && target !in t.orgLimit then new_ else 0)
  {
    var u, target := WithLink(t, repo, org, digest), TargetOrg(t, repo, org);
    var c := Counted(target, digest);
    OrgHasBlobMeansCounted(t, target, digest);
    LinkCounts(t, repo, org, digest);
    forall o: Org
      ensures OrgUsed(u, o) == OrgUsed(t, o) + if o == target && c !in AllCounted(t) then t.size(digest) else 0
    {
      assert OfOrg(u, o) == if o == target then OfOrg(t, o) + {c} else OfOrg(t, o);
      SumAdd(OfOrg(t, o), c, t.size);
    }
    forall x: User ensures OwnerUsed(u, x) ==
        OwnerUsed(t, x)
        + if (target, x) in t.owners && target !in t.orgLimit && c !in AllCounted(t) then t.size(digest) else 0
    {
      assert OfPool(u, x) == if InPool(t, x, c) then OfPool(t, x) + {c} else OfPool(t, x);
      SumAdd(OfPool(t, x), c, t.size);
    }
  }

  /** A push is accepted exactly when its content counts already, or the scopes
      that govern the organization stay within their limits afterwards. */
  lemma AcceptsExactly(t: Tables, repo: Repo, org: Org, digest: Digest)
    requires WellFormed(t)
    ensures var u, target := WithLink(t, repo, org, digest), TargetOrg(t, repo, org);
            Accepts(t, repo, org, digest, t.size(digest)) <==>
              || OrgHasBlob(t, target, digest)
              || (target in t.orgLimit && OrgUsed(u, target) <= t.orgLimit[target])
              || (target !in t.orgLimit
                  && forall x: User :: (target, x) in t.owners && x in t.userLimit ==>
                       OwnerUsed(u, x) <= t.userLimit[x])
  {
    LinkAddsOnce(t, repo, org, digest);
    hide OrgUsed, OwnerUsed, OrgHasBlob;
  }

  /** A push into an organization with its own limit moves no owner's pool. */
  lemma OwnLimitSparesOwners(t: Tables, repo: Repo, org: Org, digest: Digest, creation: Creation, user: User)
    requires WellFormed(t) && TargetOrg(t, repo, org) in t.orgLimit
    ensures OwnerUsed(Step(t, PushBlob(repo, org, digest, creation)), user) == OwnerUsed(t, user)
  {
    LinkAddsOnce(t, repo, org, digest);
  }

  /** One step leaves each governed scope where it was, or lower, or within its
      limit; no step changes a limit or an owner. */
  lemma StepKeepsScopes(t: Tables, a: Action, o: Org, x: User)
    requires WellFormed(t)
    ensures var u := Step(t, a);
            && WellFormed(u) && u.orgLimit == t.orgLimit && u.userLimit == t.userLimit && u.owners == t.owners
            && (o in t.orgLimit && OrgUsed(u, o) > OrgUsed(t, o) ==> a.PushBlob? && OrgUsed(u, o) <= t.orgLimit[o])
            && (x in t.userLimit && OwnerUsed(u, x) > OwnerUsed(t, x) ==>
                  a.PushBlob? && OwnerUsed(u, x) <= t.userLimit[x])
  {
    var u := Step(t, a);
    match a {
      case PushBlob(repo, org, d, _) =>
        LinkAddsOnce(t, repo, org, d);
      case CreateFor(repo, org, d, _) =>
        LinkCounts(t, repo, org, d);
        assert OfOrg(u, o) == OfOrg(t, o) && OfPool(u, x) == OfPool(t, x);
      case Unlink(gone) =>
        assert AllCounted(u) <= AllCounted(t);
        SumOfSubset(OfOrg(u, o), OfOrg(t, o), t.size);
        SumOfSubset(OfPool(u, x), OfPool(t, x), t.size);
    }
  }

  /** Over any serial run, usage never passes the limit; where an administrator
      set the limit below what was used, it never grows. */
  lemma {:induction false} UsageNeverPassesLimits(t: Tables, trace: seq<Action>, o: Org, x: User)
    requires WellFormed(t)
    ensures o in t.orgLimit ==> OrgUsed(Run(t, trace), o) <= Max(OrgUsed(t, o), t.orgLimit[o])
    ensures x in t.userLimit ==> OwnerUsed(Run(t, trace), x) <= Max(OwnerUsed(t, x), t.userLimit[x])
    decreases |trace|
  {
    if trace != [] {
      StepKeepsScopes(t, trace[0], o, x);
      hide Step, OrgUsed, OwnerUsed, WellFormed;
      UsageNeverPassesLimits(Step(t, trace[0]), trace[1..], o, x);
    }
  }
}
