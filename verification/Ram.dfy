/**
 The simulated RAM machine: roles, policies with their rotating versions, and attachments; and the policy
 deletion that clears the way for its last request. Version `vN` is the number `N`.
 */
module Ram {
  import opened Wrappers

  datatype Version = Version(id: nat, isDefault: bool, document: string)

  datatype Policy = Policy(defaultVersion: nat, document: string, versions: seq<Version>)

  datatype Role = Role(id: nat, document: string)

  datatype PolicyType = Custom | OtherType(name: string)

  datatype Attachment = Attachment(role: string, kind: PolicyType, policy: string)

  datatype State = State(
    sequence: nat,
    roles: map<string, Role>,
    policies: map<string, Policy>,
    attachments: set<Attachment>)

  datatype Error =
    | RoleNotExist
    | PolicyNotExist
    | RoleExists
    | PolicyExists
    | DeleteConflictRolePolicy
    | LimitExceededPolicyVersion
    | DeleteConflictPolicy
    | DeleteConflictPolicyVersion

  type Reply = Result<(), Error>

  datatype Request =
    | CreateRole(role: string, document: string)
    | UpdateRole(role: string, document: string)
    | DeleteRole(role: string)
    | CreatePolicy(policy: string, document: string)
    | CreatePolicyVersion(policy: string, document: string, rotate: bool)
    | DeletePolicyVersion(policy: string, version: nat)
    | DeletePolicy(policy: string)
    | Attach(attachment: Attachment)
    | Detach(attachment: Attachment)

  // ---- Versions ----

  const LIMIT := 5

  /** `versions.findIndex(v => !v.IsDefaultVersion)`, where a miss makes `splice` take the last. */
  function Oldest(versions: seq<Version>): (i: nat)
    requires versions != []
    ensures i < |versions|
    ensures !versions[i].isDefault || i == |versions| - 1
    ensures forall j | 0 <= j < i :: versions[j].isDefault
  {
    if |versions| == 1 || !versions[0].isDefault then 0 else 1 + Oldest(versions[1..])
  }

  function Rotated(versions: seq<Version>): seq<Version> {
    if |versions| == LIMIT then versions[..Oldest(versions)] + versions[Oldest(versions) + 1..] else versions
  }

  function Cleared(versions: seq<Version>): seq<Version> {
    seq(|versions|, i requires 0 <= i < |versions| => versions[i].(isDefault := false))
  }

  function AddVersion(p: Policy, document: string): Policy {
    var id := p.defaultVersion + 1;
    Policy(id, document, Cleared(Rotated(p.versions)) + [Version(id, true, document)])
  }

  function WithoutVersion(versions: seq<Version>, id: nat): seq<Version> {
    if versions == [] then []
    else
      var last := versions[|versions| - 1];
      WithoutVersion(versions[..|versions| - 1], id) + if last.id == id then [] else [last]
  }

  // ---- Requests ----

  predicate RoleAttached(s: State, role: string) {
    exists a | a in s.attachments :: a.role == role
  }

  predicate PolicyAttached(s: State, policy: string) {
    exists a | a in s.attachments :: a.policy == policy
  }

  function HandlePolicy(s: State, r: Request): (State, Reply)
    requires r.CreatePolicy? || r.CreatePolicyVersion? || r.DeletePolicyVersion? || r.DeletePolicy?
  {
    match r
    case CreatePolicy(name, document) =>
      if name in s.policies then (s, Err(PolicyExists))
      else (s.(policies := s.policies[name := Policy(1, document, [Version(1, true, document)])]), Ok(()))
    case CreatePolicyVersion(name, document, rotate) =>
      if name !in s.policies then (s, Err(PolicyNotExist))
      else if |s.policies[name].versions| == LIMIT && !rotate then (s, Err(LimitExceededPolicyVersion))
      else (s.(policies := s.policies[name := AddVersion(s.policies[name], document)]), Ok(()))
    case DeletePolicyVersion(name, version) =>
      if name !in s.policies then (s, Ok(()))
      else
        var p := s.policies[name];
        (s.(policies := s.policies[name := p.(versions := WithoutVersion(p.versions, version))]), Ok(()))
    case DeletePolicy(name) =>
      if PolicyAttached(s, name) then (s, Err(DeleteConflictPolicy))
      else if name in s.policies && |s.policies[name].versions| > 1 then (s, Err(DeleteConflictPolicyVersion))
      else (s.(policies := s.policies - {name}), Ok(()))
  }

  function HandleRole(s: State, r: Request): (State, Reply)
    requires r.CreateRole? || r.UpdateRole? || r.DeleteRole? || r.Attach? || r.Detach?
  {
    match r
    case CreateRole(role, document) =>
      if role in s.roles then (s, Err(RoleExists))
      else (s.(sequence := s.sequence + 1, roles := s.roles[role := Role(s.sequence + 1, document)]), Ok(()))
    case UpdateRole(role, document) =>
      if role !in s.roles then (s, Err(RoleNotExist))
      else (s.(roles := s.roles[role := s.roles[role].(document := document)]), Ok(()))
    case DeleteRole(role) =>
      if RoleAttached(s, role) then (s, Err(DeleteConflictRolePolicy)) else (s.(roles := s.roles - {role}), Ok(()))
    case Attach(a) =>
      if a.role !in s.roles || (a.kind.Custom? && a.policy !in s.policies) then (s, Err(PolicyNotExist))
      else (s.(attachments := s.attachments + {a}), Ok(()))
    case Detach(a) => (s.(attachments := s.attachments - {a}), Ok(()))
  }

  function Handle(s: State, r: Request): (State, Reply) {
    if r.CreatePolicy? || r.CreatePolicyVersion? || r.DeletePolicyVersion? || r.DeletePolicy? then HandlePolicy(s, r)
    else HandleRole(s, r)
  }

  function HandleAll(s: State, requests: seq<Request>): State
    decreases |requests|
  {
    if requests == [] then s else HandleAll(Handle(s, requests[0]).0, requests[1..])
  }

  const EMPTY := State(0, map[], map[], {})

  // ---- What every request keeps ----

  /** Attachments name a role that exists, and a policy that exists when it is a custom one. */
  ghost predicate AttachmentsOk(s: State) {
    forall a | a in s.attachments :: a.role in s.roles && (a.kind.Custom? ==> a.policy in s.policies)
  }

  /**
   At most five versions, in the order they were made, none newer than the default number; only the last
   can be the default, and then it bears that number and the current document.
   */
  ghost predicate PolicyOk(p: Policy) {
    && |p.versions| <= LIMIT
    && Increasing(p.versions)
    && (forall i | 0 <= i < |p.versions| :: p.versions[i].id <= p.defaultVersion)
    && (forall i | 0 <= i < |p.versions| ::
          p.versions[i].isDefault ==> i == |p.versions| - 1)
    && (forall i | 0 <= i < |p.versions| ::
          p.versions[i].isDefault <==> p.versions[i].id == p.defaultVersion)
    && (forall i | 0 <= i < |p.versions| :: p.versions[i].isDefault ==> p.versions[i].document == p.document)
  }

  ghost predicate Valid(s: State) {
    AttachmentsOk(s) && forall name | name in s.policies :: PolicyOk(s.policies[name])
  }

  lemma RotatedKeepsOk(p: Policy)
    requires PolicyOk(p)
    ensures PolicyOk(p.(versions := Rotated(p.versions))) && |Rotated(p.versions)| < LIMIT
    ensures |p.versions| == LIMIT ==> Rotated(p.versions) == p.versions[1..]
  {
  }

  lemma AddVersionKeepsOk(p: Policy, document: string)
    requires PolicyOk(p)
    ensures PolicyOk(AddVersion(p, document)) && HasDefault(AddVersion(p, document))
  {
    RotatedKeepsOk(p);
  }

  /**
   A new version becomes the default with the next number and the new document, and keeps every other
   version but, at the limit, the oldest.
   */
  lemma AddVersionKeepsOthers(p: Policy, document: string)
    requires PolicyOk(p)
    ensures var dropped := if |p.versions| == 5 then 1 else 0;
            var added := AddVersion(p, document);
            && added.document == document && added.defaultVersion == p.defaultVersion + 1
            && |added.versions| == |p.versions| - dropped + 1
            && added.versions[|added.versions| - 1] == Version(p.defaultVersion + 1, true, document)
            && forall i | 0 <= i < |added.versions| - 1 ::
                 added.versions[i] == p.versions[i + dropped].(isDefault := false)
  {
    RotatedKeepsOk(p);
    var dropped := if |p.versions| == LIMIT then 1 else 0;
    var kept := Rotated(p.versions);
    assert kept == p.versions[dropped..];
    ClearedAt(kept);
  }

  lemma ClearedAt(versions: seq<Version>)
    ensures |Cleared(versions)| == |versions|
    ensures forall i | 0 <= i < |versions| :: Cleared(versions)[i] == versions[i].(isDefault := false)
  {
  }

  lemma {:induction false} WithoutVersionHolds(versions: seq<Version>, id: nat, v: Version)
    ensures v in WithoutVersion(versions, id) <==> v in versions && v.id != id
    ensures |WithoutVersion(versions, id)| <= |versions|
  {
    if versions != [] {
      assert versions == versions[..|versions| - 1] + [versions[|versions| - 1]];
      WithoutVersionHolds(versions[..|versions| - 1], id, v);
    }
  }

  ghost predicate Increasing(versions: seq<Version>) {
    forall i, j | 0 <= i < j < |versions| :: versions[i].id < versions[j].id
  }

  lemma {:induction false} WithoutVersionIncreases(versions: seq<Version>, id: nat)
    requires Increasing(versions)
    ensures Increasing(WithoutVersion(versions, id))
  {
    if versions != [] {
      var init, last := versions[..|versions| - 1], versions[|versions| - 1];
      WithoutVersionIncreases(init, id);
      var before := WithoutVersion(init, id);
      forall i | 0 <= i < |before|
        ensures before[i].id < last.id
      {
        WithoutVersionHolds(init, id, before[i]);
      }
    }
  }

  /** Deleting a version keeps the others, in order. */
  lemma WithoutVersionKeeps(versions: seq<Version>, id: nat)
    requires Increasing(versions)
    ensures var left := WithoutVersion(versions, id);
            && |left| <= |versions| && Increasing(left)
            && (forall v {:trigger v in left} :: v in left <==> v in versions && v.id != id)
            && (versions != [] && versions[|versions| - 1].id != id ==>
                 left != [] && left[|left| - 1] == versions[|versions| - 1])
  {
    WithoutVersionIncreases(versions, id);
    forall v
      ensures v in WithoutVersion(versions, id) <==> v in versions && v.id != id
      ensures |WithoutVersion(versions, id)| <= |versions|
    {
      WithoutVersionHolds(versions, id, v);
    }
    if versions == [] {
      WithoutVersionHolds(versions, id, Version(0, false, ""));
    } else {
      WithoutVersionHolds(versions, id, versions[0]);
    }
  }

  lemma WithoutVersionKeepsOk(p: Policy, id: nat)
    requires PolicyOk(p)
    ensures PolicyOk(p.(versions := WithoutVersion(p.versions, id)))
    ensures HasDefault(p.(versions := WithoutVersion(p.versions, id))) <==> HasDefault(p) && id != p.defaultVersion
  {
    WithoutVersionKeeps(p.versions, id);
    var left := WithoutVersion(p.versions, id);
    forall i | 0 <= i < |left|
      ensures left[i] in p.versions && left[i].id != id
      ensures left[i].isDefault ==> i == |left| - 1 && left[i].document == p.document
      ensures left[i].isDefault <==> left[i].id == p.defaultVersion
      ensures left[i].id <= p.defaultVersion
    {
      assert left[i] in left;
      if left[i].isDefault {
        assert left[i] == p.versions[|p.versions| - 1];
      }
    }
  }

  /** The one default version a policy should have: its newest, carrying the current document. */
  ghost predicate HasDefault(p: Policy) {
    p.versions != [] && p.versions[|p.versions| - 1].isDefault
  }

  lemma HandleKeepsValid(s: State, r: Request)
    requires Valid(s)
    ensures Valid(Handle(s, r).0)
  {
    match r
    case CreatePolicyVersion(name, document, _) =>
      if name in s.policies {
        AddVersionKeepsOk(s.policies[name], document);
      }
    case DeletePolicyVersion(name, version) =>
      if name in s.policies {
        WithoutVersionKeepsOk(s.policies[name], version);
      }
    case _ =>
  }

  lemma {:induction false} EveryRunStaysValid(s: State, requests: seq<Request>)
    requires Valid(s)
    ensures Valid(HandleAll(s, requests))
    decreases |requests|
  {
    if requests != [] {
      HandleKeepsValid(s, requests[0]);
      EveryRunStaysValid(Handle(s, requests[0]).0, requests[1..]);
    }
  }

  /** A request that deletes the version its policy currently defaults to. */
  predicate DeletesDefault(s: State, r: Request) {
    r.DeletePolicyVersion? && r.policy in s.policies && r.version == s.policies[r.policy].defaultVersion
  }

  /** A policy keeps its default through a request exactly when the request does not delete it. */
  lemma DefaultKeptIff(s: State, r: Request, name: string)
    requires Valid(s) && name in s.policies && HasDefault(s.policies[name]) && name in Handle(s, r).0.policies
    ensures HasDefault(Handle(s, r).0.policies[name]) <==>
            !(r.DeletePolicyVersion? && r.policy == name && r.version == s.policies[name].defaultVersion)
  {
    HandleKeepsValid(s, r);
    match r
    case CreatePolicyVersion(n, document, _) =>
      if n == name {
        AddVersionKeepsOk(s.policies[name], document);
      }
    case DeletePolicyVersion(n, version) =>
      if n == name {
        WithoutVersionKeepsOk(s.policies[name], version);
      }
    case _ =>
  }

  ghost predicate NeverDeletesDefault(s: State, requests: seq<Request>)
    decreases |requests|
  {
    requests == [] || (!DeletesDefault(s, requests[0]) && NeverDeletesDefault(Handle(s, requests[0]).0, requests[1..]))
  }

  ghost predicate AllHaveDefault(s: State) {
    forall name | name in s.policies :: HasDefault(s.policies[name])
  }

  /**
   Over every run that only deletes non-default versions, every policy has one to five versions with
   distinct increasing ids, and exactly one default: the newest, with the current document.
   */
  lemma {:induction false} EveryPolicyHasItsDefault(s: State, requests: seq<Request>)
    requires Valid(s) && AllHaveDefault(s) && NeverDeletesDefault(s, requests)
    ensures Valid(HandleAll(s, requests)) && AllHaveDefault(HandleAll(s, requests))
    decreases |requests|
  {
    if requests != [] {
      var r := requests[0];
      HandleKeepsValid(s, r);
      var t := Handle(s, r).0;
      forall name | name in t.policies
        ensures HasDefault(t.policies[name])
      {
        if name in s.policies {
          DefaultKeptIff(s, r, name);
        }
      }
      EveryPolicyHasItsDefault(t, requests[1..]);
    }
  }

  // ---- What each request brings about ----

  lemma RefusedChangesNothing(s: State, r: Request)
    ensures Handle(s, r).1.Err? ==> Handle(s, r).0 == s
  {
  }

  /** A role is made once, with a number of its own, updated when it is there, and goes when nothing is attached. */
  lemma RoleRequests(s: State, role: string, document: string)
    ensures var (t, reply) := Handle(s, CreateRole(role, document));
            && (reply.Ok? <==> role !in s.roles)
            && (reply.Ok? ==>
                  t == s.(sequence := s.sequence + 1, roles := s.roles[role := Role(s.sequence + 1, document)]))
    ensures var (t, reply) := Handle(s, UpdateRole(role, document));
            && (reply.Ok? <==> role in s.roles)
            && (reply.Ok? ==> t == s.(roles := s.roles[role := Role(s.roles[role].id, document)]))
    ensures var (t, reply) := Handle(s, DeleteRole(role));
            && (reply.Ok? <==> forall a | a in s.attachments :: a.role != role)
            && (reply.Ok? ==> role !in t.roles && t == s.(roles := t.roles) && t.roles - {role} == s.roles - {role})
  {
  }

  /** A policy is made once; a version is added to it, at five only when the oldest may make way. */
  lemma VersionsAreLimited(s: State, policy: string, document: string, rotate: bool)
    requires Valid(s)
    ensures var (t, reply) := Handle(s, CreatePolicy(policy, document));
            && (reply.Ok? <==> policy !in s.policies)
            && (reply.Ok? ==>
                  && t == s.(policies := t.policies)
                  && t.policies == s.policies[policy := Policy(1, document, [Version(1, true, document)])])
    ensures var (t, reply) := Handle(s, CreatePolicyVersion(policy, document, rotate));
            && (reply.Ok? <==> policy in s.policies && (|s.policies[policy].versions| < 5 || rotate))
            && (reply.Ok? ==>
                  && t == s.(policies := t.policies)
                  && t.policies == s.policies[policy := AddVersion(s.policies[policy], document)])
  {
  }

  /** A policy goes exactly when nothing is attached to it and at most one version is left. */
  lemma PolicyGoesIff(s: State, policy: string)
    ensures var (t, reply) := Handle(s, DeletePolicy(policy));
            && (reply.Ok? <==>
                  && (forall a | a in s.attachments :: a.policy != policy)
                  && (policy in s.policies ==> |s.policies[policy].versions| <= 1))
            && (reply.Ok? ==>
                  && policy !in t.policies && t == s.(policies := t.policies)
                  && t.policies - {policy} == s.policies - {policy})
  {
  }

  /** A deleted version is the only one that goes. */
  lemma VersionGoes(s: State, policy: string, version: nat)
    requires policy in s.policies
    ensures var (t, reply) := Handle(s, DeletePolicyVersion(policy, version));
            && reply.Ok? && t == s.(policies := t.policies) && t.policies - {policy} == s.policies - {policy}
            && policy in t.policies
            && forall v :: v in t.policies[policy].versions <==> v in s.policies[policy].versions && v.id != version
  {
    var t := Handle(s, DeletePolicyVersion(policy, version)).0;
    forall v
      ensures v in t.policies[policy].versions <==> v in s.policies[policy].versions && v.id != version
    {
      WithoutVersionHolds(s.policies[policy].versions, version, v);
    }
    assert t.policies - {policy} == s.policies - {policy};
  }

  /** An attachment needs its role, and a custom policy; it holds the role until it is detached again. */
  lemma AttachmentHolds(s: State, a: Attachment)
    ensures var (t, reply) := Handle(s, Attach(a));
            && (reply.Ok? <==> a.role in s.roles && (a.kind.Custom? ==> a.policy in s.policies))
            && (reply.Ok? ==>
                  && Handle(t, DeleteRole(a.role)) == (t, Err(DeleteConflictRolePolicy))
                  && (a !in s.attachments ==> Handle(t, Detach(a)) == (s, Ok(()))))
    ensures var (t, reply) := Handle(s, Detach(a));
            reply.Ok? && t == s.(attachments := t.attachments) && t.attachments == s.attachments - {a}
  {
    var (t, reply) := Handle(s, Attach(a));
    if reply.Ok? {
      assert a in t.attachments && RoleAttached(t, a.role);
      if a !in s.attachments {
        assert t.attachments - {a} == s.attachments;
      }
    }
  }

  // ---- Deleting a policy ----

  datatype Outcome = Deleted | Rejected(error: Error)

  /** On the way: of the listed versions, the default and those not reached yet are left. */
  ghost predicate Clearing(listed: seq<Version>, current: seq<Version>, ahead: seq<Version>) {
    forall v {:trigger v in current} :: v in current <==> v in listed && (v.isDefault || v in ahead)
  }

  lemma ClearOne(listed: seq<Version>, current: seq<Version>, version: Version, ahead: seq<Version>)
    requires Increasing(listed) && Increasing(current)
    requires Clearing(listed, current, [version] + ahead) && version in listed
    ensures version.isDefault ==> Clearing(listed, current, ahead)
    ensures !version.isDefault && version !in ahead ==> Clearing(listed, WithoutVersion(current, version.id), ahead)
  {
    WithoutVersionKeeps(current, version.id);
    forall v
      ensures v in listed && v.id == version.id ==> v == version
    {
      IdsTell(listed, v, version);
    }
  }

  /** Asks for the deletion of every version that is not the default. */
  method ClearVersions(s: State, name: string) returns (t: State)
    requires Valid(s) && name in s.policies
    ensures Valid(t) && name in t.policies
    ensures t == s.(policies := s.policies[name := s.policies[name].(versions := t.policies[name].versions)])
    ensures forall v :: v in t.policies[name].versions <==> v in s.policies[name].versions && v.isDefault
  {
    t := s;
    var listed := s.policies[name].versions;
    assert s.policies == s.policies[name := s.policies[name].(versions := listed)];
    for i := 0 to |listed|
      invariant Valid(t) && name in t.policies
      invariant t == s.(policies := s.policies[name := s.policies[name].(versions := t.policies[name].versions)])
      invariant Clearing(listed, t.policies[name].versions, listed[i..])
    {
      var version := listed[i];
      assert listed[i..] == [version] + listed[i + 1..];
      ClearOne(listed, t.policies[name].versions, version, listed[i + 1..]);
      if !version.isDefault {
        HandleKeepsValid(t, DeletePolicyVersion(name, version.id));
        t := Handle(t, DeletePolicyVersion(name, version.id)).0;
      }
    }
  }

  /**
   The provider's deletion: every version that is not the default, then the policy. It is never rejected
   for versions left over; only an attachment stops it, after the other versions are gone.
   */
  method DeletePolicyAndVersions(s: State, name: string) returns (t: State, outcome: Outcome)
    requires Valid(s)
    ensures Valid(t) && t.roles == s.roles && t.attachments == s.attachments && t.sequence == s.sequence
    ensures t.policies - {name} == s.policies - {name}
    ensures outcome.Deleted? <==> name !in s.policies || !PolicyAttached(s, name)
    ensures outcome.Deleted? ==> name !in t.policies
    ensures outcome.Rejected? ==> && outcome.error == DeleteConflictPolicy && name in t.policies
                                  && (forall v | v in t.policies[name].versions :: v.isDefault)
    ensures outcome.Rejected? && HasDefault(s.policies[name]) ==>
              t.policies[name].versions == [s.policies[name].versions[|s.policies[name].versions| - 1]]
  {
    if name !in s.policies {
      return s, Deleted;
    }
    t := ClearVersions(s, name);
    OnlyDefaultLeft(s.policies[name], t.policies[name]);
    HandleKeepsValid(t, DeletePolicy(name));
    var step := HandlePolicy(t, DeletePolicy(name));
    t := step.0;
    outcome := if step.1.Ok? then Deleted else Rejected(step.1.error);
  }

  /** In a list of increasing ids, a version with another's id is that version. */
  lemma IdsTell(versions: seq<Version>, v: Version, u: Version)
    requires Increasing(versions) && u in versions
    ensures v in versions && v.id == u.id ==> v == u
  {
  }

  lemma OnlyDefaultLeft(before: Policy, after: Policy)
    requires PolicyOk(before) && PolicyOk(after) && after == before.(versions := after.versions)
    requires forall v :: v in after.versions <==> v in before.versions && v.isDefault
    ensures |after.versions| <= 1
    ensures HasDefault(before) ==> after.versions == [before.versions[|before.versions| - 1]]
  {
    assert after.versions != [] ==> after.versions[0] in after.versions && after.versions[0].isDefault;
    if HasDefault(before) {
      var last := before.versions[|before.versions| - 1];
      assert last in before.versions;
      assert last in after.versions;
    }
  }

  // ---- The machine itself ----

  /** The simulator's maps and version lists, changed in place by each request. */
  class RamResources {
    var sequence: nat
    var roles: map<string, Role>
    var policies: map<string, Policy>
    var attachments: set<Attachment>

    function Contents(): State
      reads this
    {
      State(sequence, roles, policies, attachments)
    }

    constructor ()
      ensures Contents() == EMPTY && Valid(Contents())
    {
      sequence, roles, policies, attachments := 0, map[], map[], {};
    }

    /** Finds the oldest version that is not the default. */
    method FindOldest(versions: seq<Version>) returns (i: nat)
      requires versions != []
      ensures i == Oldest(versions)
    {
      i := 0;
      while i < |versions| - 1 && versions[i].isDefault
        invariant i < |versions| && Oldest(versions) == i + Oldest(versions[i..])
      {
        assert versions[i..][1..] == versions[i + 1..];
        i := i + 1;
      }
    }

    /** Makes room if the limit is reached, clears every default flag, and pushes the new default. */
    method PushVersion(name: string, document: string)
      requires name in policies
      modifies this`policies
      ensures policies == old(policies)[name := AddVersion(old(policies)[name], document)]
    {
      var p := policies[name];
      var id := p.defaultVersion + 1;
      var versions := p.versions;
      if |versions| == LIMIT {
        var first := FindOldest(versions);
        versions := versions[..first] + versions[first + 1..];
      }
      ghost var rotated := versions;
      for i := 0 to |versions|
        invariant |versions| == |rotated|
        invariant forall j | 0 <= j < |rotated| ::
                    versions[j] == if j < i then rotated[j].(isDefault := false) else rotated[j]
      {
        versions := versions[i := versions[i].(isDefault := false)];
      }
      assert versions == Cleared(rotated);
      policies := policies[name := Policy(id, document, versions + [Version(id, true, document)])];
    }

    method DispatchPolicy(r: Request) returns (reply: Reply)
      requires r.CreatePolicy? || r.CreatePolicyVersion? || r.DeletePolicyVersion? || r.DeletePolicy?
      requires Valid(Contents())
      modifies this
      ensures (Contents(), reply) == HandlePolicy(old(Contents()), r)
      ensures Valid(Contents())
    {
      HandleKeepsValid(Contents(), r);
      match r {
        case CreatePolicy(name, document) =>
          if name in policies {
            return Err(PolicyExists);
          }
          policies := policies[name := Policy(1, document, [Version(1, true, document)])];
        case CreatePolicyVersion(name, document, rotate) =>
          if name !in policies {
            return Err(PolicyNotExist);
          }
          if |policies[name].versions| == LIMIT && !rotate {
            return Err(LimitExceededPolicyVersion);
          }
          PushVersion(name, document);
        case DeletePolicyVersion(name, version) =>
          if name in policies {
            var p := policies[name];
            policies := policies[name := p.(versions := WithoutVersion(p.versions, version))];
          }
        case DeletePolicy(name) =>
          if PolicyAttached(Contents(), name) {
            return Err(DeleteConflictPolicy);
          }
          if name in policies && |policies[name].versions| > 1 {
            return Err(DeleteConflictPolicyVersion);
          }
          policies := policies - {name};
      }
      reply := Ok(());
    }

    method DispatchRole(r: Request) returns (reply: Reply)
      requires r.CreateRole? || r.UpdateRole? || r.DeleteRole? || r.Attach? || r.Detach?
      requires Valid(Contents())
      modifies this
      ensures (Contents(), reply) == HandleRole(old(Contents()), r)
      ensures Valid(Contents())
    {
      HandleKeepsValid(Contents(), r);
      match r {
        case CreateRole(role, document) =>
          if role in roles {
            return Err(RoleExists);
          }
          sequence := sequence + 1;
          roles := roles[role := Role(sequence, document)];
        case UpdateRole(role, document) =>
          if role !in roles {
            return Err(RoleNotExist);
          }
          roles := roles[role := roles[role].(document := document)];
        case DeleteRole(role) =>
          if RoleAttached(Contents(), role) {
            return Err(DeleteConflictRolePolicy);
          }
          roles := roles - {role};
        case Attach(a) =>
          if a.role !in roles || (a.kind.Custom? && a.policy !in policies) {
            return Err(PolicyNotExist);
          }
          attachments := attachments + {a};
        case Detach(a) =>
          attachments := attachments - {a};
      }
      reply := Ok(());
    }

    method ServeOne(r: Request)
      requires Valid(Contents())
      modifies this
      ensures Contents() == Handle(old(Contents()), r).0 && Valid(Contents())
    {
      if r.CreatePolicy? || r.CreatePolicyVersion? || r.DeletePolicyVersion? || r.DeletePolicy? {
        var _ := DispatchPolicy(r);
      } else {
        var _ := DispatchRole(r);
      }
    }

    /** Any run of requests on the object is the run the lemmas are about, and keeps it valid. */
    method Serve(requests: seq<Request>)
      requires Valid(Contents())
      modifies this
      ensures Contents() == HandleAll(old(Contents()), requests) && Valid(Contents())
    {
      for i := 0 to |requests|
        invariant Valid(Contents())
        invariant HandleAll(Contents(), requests[i..]) == HandleAll(old(Contents()), requests)
      {
        assert requests[i..][1..] == requests[i + 1..];
        ServeOne(requests[i]);
      }
    }
  }
}
