/** The node control server: registrations, nodes and modules behind one lifecycle lock. */
module ControlServer {
  import opened Wrappers
  import opened BearerToken

  const MAX_NODE_ID: nat := 0xFF_FFFF_FFFF

  type Uuid = nat
  type RegistrationId = nat
  type NodeId = nat

  /** A provisional certificate, or one signed for a request, a node name and a node ID. */
  datatype Certificate = Provisional(pem: string) | Signed(csrPem: string, nodeName: Uuid, nodeId: NodeId)

  datatype Registered = Registered(nodeName: Uuid, csrPem: string, certPem: Certificate, token: Verifier)
  datatype NodeDetails = NodeDetails(registrationId: RegistrationId, nodeAddress: string, attributes: map<string, string>)
  datatype Authenticated = Authenticated(registrationId: RegistrationId, bearerGeneration: nat)

  type Registrations = map<RegistrationId, Registered>
  type Nodes = map<NodeId, NodeDetails>

  // ---------------------------------------------------------------- what every run keeps

  predicate UniqueNames(regs: Registrations) {
    forall a, b :: a in regs && b in regs && regs[a].nodeName == regs[b].nodeName ==> a == b
  }

  predicate TokensOk(regs: Registrations) { forall a :: a in regs ==> WellFormed(regs[a].token) }

  /** Every node belongs to a live registration that holds the certificate signed for it. */
  predicate Owned(regs: Registrations, nodes: Nodes) {
    forall n :: n in nodes ==> nodes[n].registrationId in regs && Certified(regs[nodes[n].registrationId], n)
  }

  predicate Certified(r: Registered, n: NodeId) { r.certPem == Signed(r.csrPem, r.nodeName, n) }

  predicate OnePerRegistration(nodes: Nodes) {
    forall n, k :: n in nodes && k in nodes && nodes[n].registrationId == nodes[k].registrationId ==> n == k
  }

  /** How a registration's verifier began and what has been done to it since. */
  datatype Past = Past(first: Digest, registered: nat, ops: seq<Op>)

  /** Every live verifier is a replay of its past, so that what holds of all token runs holds of it. */
  predicate Replayed(regs: Registrations, past: map<RegistrationId, Past>, ttl: nat) {
    forall a :: a in regs ==>
      a in past && regs[a].token == Replay(New(past[a].first, past[a].registered, ttl), past[a].ops, ttl)
  }

  function Extend(past: map<RegistrationId, Past>, a: RegistrationId, op: Op): map<RegistrationId, Past>
    requires a in past
  {
    past[a := past[a].(ops := past[a].ops + [op])]
  }

  lemma ExtendReplays(regs: Registrations, past: map<RegistrationId, Past>, ttl: nat, a: RegistrationId, op: Op)
    requires Replayed(regs, past, ttl) && a in regs
    ensures Replayed(regs[a := regs[a].(token := After(regs[a].token, op, ttl).0)], Extend(past, a, op), ttl)
  {
    ReplaySnoc(New(past[a].first, past[a].registered, ttl), past[a].ops, op, ttl);
  }

  /**
   Why a bearer with this digest was accepted: it was issued at registration or staged later, the
   lease had not run out, and if it had been replaced it was staged again after that.
   */
  ghost predicate Justified(p: Past, ttl: nat, d: Digest, now: nat) {
    var v := New(p.first, p.registered, ttl);
    && LeaseHolds(p, ttl, now)
    && (d == p.first || exists k :: 0 <= k < |p.ops| && Stages(v, p.ops, ttl, k, d))
    && forall j :: 0 <= j <= |p.ops| && Replay(v, p.ops[..j], ttl).current == d && Replay(v, p.ops, ttl).current != d ==>
         RestagedSince(v, p.ops, ttl, j, d)
  }

  lemma AcceptedIsJustified(p: Past, ttl: nat, d: Digest, now: nat)
    requires BearerToken.Authenticate(Replay(New(p.first, p.registered, ttl), p.ops, ttl), d, now, ttl).1.Some?
    ensures Justified(p, ttl, d, now)
  {
    var v := New(p.first, p.registered, ttl);
    LeaseBoundsUse(p.first, p.registered, ttl, p.ops, d, now);
    if d != p.first && forall k :: 0 <= k < |p.ops| ==> !Stages(v, p.ops, ttl, k, d) {
      HeldWasIssued(v, p.ops, ttl, d);
    }
    forall j | 0 <= j <= |p.ops| && Replay(v, p.ops[..j], ttl).current == d && Replay(v, p.ops, ttl).current != d
      ensures RestagedSince(v, p.ops, ttl, j, d)
    {
      RunInvariant(p.first, p.registered, ttl, p.ops[..j]);
      ReplacedNeedsRestaging(v, p.ops, ttl, j, d, now);
    }
  }

  ghost predicate RegistrationsOk(regs: Registrations, past: map<RegistrationId, Past>, next: nat, ttl: nat) {
    && UniqueNames(regs) && TokensOk(regs) && Replayed(regs, past, ttl)
    && forall a :: a in regs ==> a < next
  }

  ghost predicate NodesOk(regs: Registrations, nodes: Nodes, issued: set<NodeId>, next: nat) {
    && Owned(regs, nodes) && OnePerRegistration(nodes)
    && nodes.Keys <= issued && (forall n :: n in issued ==> 1 <= n < next)
    && 1 <= next <= MAX_NODE_ID + 1
  }

  ghost predicate ModulesOk(modules: map<nat, seq<int>>, issued: set<nat>, next: nat) {
    modules.Keys == issued && forall m :: m in issued ==> m < next
  }

  // ---------------------------------------------------------------- purging

  function Live(regs: Registrations, now: nat): Registrations {
    map a | a in regs && !IsExpired(regs[a].token, now) :: regs[a]
  }

  /** One TTL has not passed since a bearer was last accepted, or since the registration. */
  predicate LeaseHolds(p: Past, ttl: nat, now: nat) {
    now <= LastSuccess(New(p.first, p.registered, ttl), p.registered, p.ops, ttl) + ttl
  }

  lemma LiveMeans(regs: Registrations, past: map<RegistrationId, Past>, ttl: nat, now: nat)
    requires Replayed(regs, past, ttl)
    ensures forall a :: a in Live(regs, now) <==> a in regs && LeaseHolds(past[a], ttl, now)
  {
    forall a | a in regs ensures a in Live(regs, now) <==> LeaseHolds(past[a], ttl, now) {
      RunInvariant(past[a].first, past[a].registered, ttl, past[a].ops);
    }
  }

  function WithoutRegistration(nodes: Nodes, a: RegistrationId): Nodes {
    map n | n in nodes && nodes[n].registrationId != a :: nodes[n]
  }

  /** Nodes whose registration is in `regs`. */
  function NodesOf(nodes: Nodes, regs: Registrations): Nodes {
    map n | n in nodes && nodes[n].registrationId in regs :: nodes[n]
  }

  class ControlServer {
    const tokenTtl: nat
    var registrations: Registrations
    var nodes: Nodes
    var modules: map<nat, seq<int>>
    var nextRegistrationId: nat
    var nextNodeId: nat
    var nextModuleId: nat
    /** Every node and module ID ever handed out. */
    ghost var issuedNodes: set<NodeId>
    ghost var issuedModules: set<nat>
    ghost var past: map<RegistrationId, Past>

    ghost predicate Valid()
      reads this
    {
      && RegistrationsOk(registrations, past, nextRegistrationId, tokenTtl)
      && NodesOk(registrations, nodes, issuedNodes, nextNodeId)
      && ModulesOk(modules, issuedModules, nextModuleId)
    }

    constructor (tokenTtl: nat)
      ensures Valid() && this.tokenTtl == tokenTtl
      ensures registrations == map[] && nodes == map[] && modules == map[]
    {
      this.tokenTtl := tokenTtl;
      registrations, nodes, modules := map[], map[], map[];
      nextRegistrationId, nextNodeId, nextModuleId := 1, 1, 1;
      issuedNodes, issuedModules, past := {}, {}, map[];
    }

    /** Only expired registrations and their nodes have gone since the call began. */
    twostate predicate PurgedOnly(now: nat)
      reads this
    {
      Untouched(now) && past == old(past)
    }

    /** The same, though a refused token may have been recorded as presented. */
    twostate predicate Untouched(now: nat)
      reads this
    {
      && registrations == Live(old(registrations), now)
      && nodes == NodesOf(old(nodes), registrations)
      && modules == old(modules)
      && nextRegistrationId == old(nextRegistrationId) && nextNodeId == old(nextNodeId) && nextModuleId == old(nextModuleId)
      && issuedNodes == old(issuedNodes) && issuedModules == old(issuedModules)
    }

    method StopNodesForRegistration(a: RegistrationId)
      modifies `nodes
      ensures nodes == WithoutRegistration(old(nodes), a)
    {
      var ids := set n | n in nodes && nodes[n].registrationId == a;
      while ids != {}
        invariant forall n :: n in nodes ==> n in old(nodes) && nodes[n] == old(nodes)[n]
        invariant forall n :: n in old(nodes) ==> n in nodes || old(nodes)[n].registrationId == a
        invariant ids == set n | n in nodes && nodes[n].registrationId == a
        decreases ids
      {
        var id :| id in ids;
        nodes := nodes - {id};
        ids := ids - {id};
      }
      assert forall n :: n in nodes ==> n !in ids;
    }

    method RemoveRegistrations(ids: set<RegistrationId>)
      requires forall n :: n in nodes ==> nodes[n].registrationId in registrations
      modifies `registrations, `nodes
      ensures registrations == old(registrations) - ids
      ensures nodes == NodesOf(old(nodes), registrations)
    {
      var rest := ids;
      while rest != {}
        invariant rest <= ids
        invariant registrations == old(registrations) - (ids - rest)
        invariant nodes == NodesOf(old(nodes), registrations)
        decreases rest
      {
        var a :| a in rest;
        NodesOfRemoved(old(nodes), registrations, a);
        registrations := registrations - {a};
        StopNodesForRegistration(a);
        rest := rest - {a};
      }
    }

    /** `purge_expired_locked`. */
    method PurgeExpiredLocked(now: nat) returns (count: nat)
      requires Valid()
      modifies `registrations, `nodes
      ensures Valid() && PurgedOnly(now)
      ensures forall a :: a in registrations <==> a in old(registrations) && LeaseHolds(past[a], tokenTtl, now)
      ensures count == |old(registrations)| - |registrations|
    {
      LiveMeans(registrations, past, tokenTtl, now);
      var expired := set a | a in registrations && IsExpired(registrations[a].token, now);
      count := |expired|;
      RemoveRegistrations(expired);
      assert registrations == Live(old(registrations), now);
      assert registrations.Keys == old(registrations).Keys - expired && expired <= old(registrations).Keys;
    }

    /** A new registration under a fresh ID, for a name no live registration has. */
    method Enroll(nodeName: Uuid, csrPem: string, certPem: string, bearer: Digest, now: nat) returns (id: RegistrationId)
      requires Valid() && forall a :: a in registrations ==> registrations[a].nodeName != nodeName
      modifies `registrations, `nextRegistrationId, `past
      ensures Valid()
      ensures id == old(nextRegistrationId) && nextRegistrationId == id + 1
      ensures registrations == old(registrations)[id := Registered(nodeName, csrPem, Provisional(certPem), New(bearer, now, tokenTtl))]
    {
      id := nextRegistrationId;
      nextRegistrationId := nextRegistrationId + 1;
      registrations := registrations[id := Registered(nodeName, csrPem, Provisional(certPem), New(bearer, now, tokenTtl))];
      past := past[id := Past(bearer, now, [])];
    }

    /** `register`; `bearer` is the digest of a freshly issued bearer, if issuance worked. */
    method Register(nodeName: Uuid, csrPem: string, certPem: string, bearer: Option<Digest>, now: nat)
      returns (r: Option<RegistrationId>)
      requires Valid()
      modifies `registrations, `nodes, `nextRegistrationId, `past
      ensures Valid()
      ensures r.None? ==> PurgedOnly(now)
      ensures r.None? <==> bearer.None? || exists a :: a in Live(old(registrations), now) && old(registrations)[a].nodeName == nodeName
      ensures r.Some? ==>
        && r.value == old(nextRegistrationId) && nextRegistrationId == r.value + 1 && r.value !in old(registrations)
        && registrations == Live(old(registrations), now)[
             r.value := Registered(nodeName, csrPem, Provisional(certPem), New(bearer.value, now, tokenTtl))]
        && nodes == NodesOf(old(nodes), Live(old(registrations), now))
    {
      var _ := PurgeExpiredLocked(now);
      var duplicate := exists a :: a in registrations && registrations[a].nodeName == nodeName;
      if duplicate || bearer.None? {
        return None;
      }
      var id := Enroll(nodeName, csrPem, certPem, bearer.value, now);
      return Some(id);
    }

    /** The registration is live and the caller's bearer generation is the current one. */
    predicate Authorized(registrationId: RegistrationId, generation: nat)
      reads this
    {
      registrationId in registrations && registrations[registrationId].token.generation == generation
    }

    /** Lifecycle and certificate state move together to the replacement node. */
    method CommitNode(registrationId: RegistrationId, cert: Certificate, details: NodeDetails)
      requires Valid() && registrationId in registrations && details.registrationId == registrationId
      requires nextNodeId <= MAX_NODE_ID
      requires cert == Signed(registrations[registrationId].csrPem, registrations[registrationId].nodeName, nextNodeId)
      modifies `registrations, `nodes, `nextNodeId, `issuedNodes
      ensures Valid()
      ensures nextNodeId == old(nextNodeId) + 1 && issuedNodes == old(issuedNodes) + {old(nextNodeId)}
      ensures registrations == old(registrations)[registrationId := old(registrations)[registrationId].(certPem := cert)]
      ensures nodes == WithoutRegistration(old(nodes), registrationId)[old(nextNodeId) := details]
    {
      var id := nextNodeId;
      CommitKeepsNodes(registrations, nodes, issuedNodes, id, cert, details);
      CommitKeepsRegistrations(registrations, past, nextRegistrationId, tokenTtl, registrationId, cert);
      nextNodeId := id + 1;
      StopNodesForRegistration(registrationId);
      registrations := registrations[registrationId := registrations[registrationId].(certPem := cert)];
      nodes := nodes[id := details];
      issuedNodes := issuedNodes + {id};
    }

    /** What a successful start leaves, given the registrations live at the commit. */
    twostate predicate Started(live: Registrations, a: RegistrationId, id: NodeId, cert: Certificate, details: NodeDetails)
      requires a in live
      reads this
    {
      && cert == Signed(live[a].csrPem, live[a].nodeName, id)
      && registrations == live[a := live[a].(certPem := cert)]
      && nodes == WithoutRegistration(NodesOf(old(nodes), live), a)[id := details]
      && nextNodeId == id + 1 && issuedNodes == old(issuedNodes) + {id}
      && modules == old(modules) && nextModuleId == old(nextModuleId) && nextRegistrationId == old(nextRegistrationId)
    }

    /**
     `start_node`.  Signing takes from `before` to `after`; `signature` is false when it fails.
     Authority is checked at both ends.
     */
    method StartNode(registrationId: RegistrationId, generation: nat, address: string, attributes: map<string, string>,
                     before: nat, after: nat, signature: bool)
      returns (r: Option<(NodeId, Certificate)>)
      requires Valid()
      modifies `registrations, `nodes, `nextNodeId, `issuedNodes
      ensures Valid()
      ensures var live := Live(Live(old(registrations), before), after);
        r.Some? <==>
          && signature && old(nextNodeId) <= MAX_NODE_ID
          && registrationId in live && live[registrationId].token.generation == generation
      ensures r.Some? ==>
        && r.value.0 == old(nextNodeId) && r.value.0 !in old(issuedNodes)
        && Started(Live(Live(old(registrations), before), after), registrationId, r.value.0, r.value.1,
                   NodeDetails(registrationId, address, attributes))
      ensures r.None? ==> PurgedOnly(before) || PurgedTwice(before, after)
      ensures r.None? && !signature ==> PurgedOnly(before)
    {
      var _ := PurgeExpiredLocked(before);
      if !Authorized(registrationId, generation) {
        return None;
      }
      var csrPem, nodeName := registrations[registrationId].csrPem, registrations[registrationId].nodeName;
      var id := nextNodeId;
      if id > MAX_NODE_ID || !signature {
        return None;
      }
      var cert := Signed(csrPem, nodeName, id);
      var _ := PurgeExpiredLocked(after);
      NodesOfTwice(old(nodes), old(registrations), before, after);
      if !Authorized(registrationId, generation) {
        return None;
      }
      CommitNode(registrationId, cert, NodeDetails(registrationId, address, attributes));
      return Some((id, cert));
    }

    /** Only registrations that had expired by `before` or by `after` have gone. */
    twostate predicate PurgedTwice(before: nat, after: nat)
      reads this
    {
      && registrations == Live(Live(old(registrations), before), after)
      && nodes == NodesOf(old(nodes), registrations)
      && modules == old(modules)
      && nextRegistrationId == old(nextRegistrationId) && nextNodeId == old(nextNodeId) && nextModuleId == old(nextModuleId)
      && issuedNodes == old(issuedNodes) && issuedModules == old(issuedModules)
    }

    /** One operation on one verifier, in place. */
    method Apply(a: RegistrationId, op: Op) returns (accepted: Option<nat>)
      requires Valid() && a in registrations
      modifies `registrations, `past
      ensures Valid()
      ensures accepted == After(old(registrations)[a].token, op, tokenTtl).1
      ensures registrations == old(registrations)[a := old(registrations)[a].(token := After(old(registrations)[a].token, op, tokenTtl).0)]
    {
      var registration := registrations[a];
      var (token, answer) := After(registration.token, op, tokenTtl);
      OpKeepsRegistrations(registrations, past, nextRegistrationId, tokenTtl, a, op);
      OpKeepsNodes(registrations, nodes, issuedNodes, nextNodeId, a, token);
      registrations := registrations[a := registration.(token := token)];
      past := Extend(past, a, op);
      return answer;
    }

    /** `stage_bearer_rotation`. */
    method StageBearerRotation(registrationId: RegistrationId, generation: nat, next: Digest, now: nat)
      returns (r: Option<nat>)
      requires Valid()
      modifies `registrations, `nodes, `past
      ensures Valid()
      ensures nodes == NodesOf(old(nodes), Live(old(registrations), now))
      ensures var live := Live(old(registrations), now);
        if registrationId in live then
          var staged := StageRotation(live[registrationId].token, generation, next);
          && r == staged.1
          && registrations == live[registrationId := live[registrationId].(token := staged.0)]
        else r.None? && registrations == live
      // a stale generation or a vanished registration changes nothing but the purge
      ensures !(registrationId in Live(old(registrations), now) && old(registrations)[registrationId].token.generation == generation) ==>
        r.None? && Untouched(now)
    {
      var _ := PurgeExpiredLocked(now);
      if registrationId !in registrations {
        return None;
      }
      ghost var live := registrations;
      r := Apply(registrationId, Stage(generation, next));
      if live[registrationId].token.generation != generation {
        assert registrations == live;
      }
    }

    /** Presents the bearer to one registration, if it has the name. */
    method Offer(a: RegistrationId, nodeName: Uuid, candidate: Digest, now: nat) returns (r: Option<Authenticated>)
      requires Valid() && a in registrations
      modifies `registrations, `past
      ensures Valid()
      ensures r.None? ==> registrations == old(registrations)
      ensures r.Some? <==> Accepts(old(registrations)[a], nodeName, candidate, now, tokenTtl)
      ensures r.Some? ==> Accepted(old(registrations), registrations, r.value, nodeName, candidate, now, tokenTtl)
    {
      if registrations[a].nodeName != nodeName {
        return None;
      }
      var accepted := Apply(a, Present(candidate, now));
      if accepted.None? {
        assert registrations == old(registrations);
        return None;
      }
      return Some(Authenticated(a, accepted.value));
    }

    /** Presents the bearer to each registration of that name until one takes it. */
    method Match(nodeName: Uuid, candidate: Digest, now: nat) returns (r: Option<Authenticated>)
      requires Valid()
      modifies `registrations, `past
      ensures Valid()
      ensures r.None? ==> registrations == old(registrations)
      ensures r.Some? ==> Accepted(old(registrations), registrations, r.value, nodeName, candidate, now, tokenTtl)
      ensures r.Some? <==> exists a :: a in old(registrations) && Accepts(old(registrations)[a], nodeName, candidate, now, tokenTtl)
    {
      var todo := registrations.Keys;
      while todo != {}
        invariant todo <= registrations.Keys && Valid() && registrations == old(registrations)
        invariant forall a :: a in registrations && a !in todo ==> !Accepts(registrations[a], nodeName, candidate, now, tokenTtl)
        decreases todo
      {
        var a :| a in todo;
        r := Offer(a, nodeName, candidate, now);
        if r.Some? {
          return;
        }
        todo := todo - {a};
      }
      return None;
    }

    /** `authenticate`; `candidate` is `None` for a malformed bearer. */
    method Authenticate(nodeName: Uuid, candidate: Option<Digest>, now: nat) returns (r: Option<Authenticated>)
      requires Valid()
      modifies `registrations, `nodes, `past
      ensures Valid()
      ensures nodes == NodesOf(old(nodes), Live(old(registrations), now))
      ensures r.None? ==> Untouched(now)
      ensures r.Some? ==>
        && candidate.Some?
        && Accepted(Live(old(registrations), now), registrations, r.value, nodeName, candidate.value, now, tokenTtl)
      ensures r.Some? ==>
        r.value.registrationId in old(past) && Justified(old(past)[r.value.registrationId], tokenTtl, candidate.value, now)
      ensures candidate.Some? ==> (r.Some? <==>
        exists a :: a in Live(old(registrations), now) && Accepts(old(registrations)[a], nodeName, candidate.value, now, tokenTtl))
      // the current bearer of a live registration is accepted under its name, and so is the pending one
      ensures candidate.Some? ==> forall a :: a in Live(old(registrations), now) && old(registrations)[a].nodeName == nodeName ==>
        Answers(Live(old(registrations), now), registrations, r, a, candidate.value, now, tokenTtl)
    {
      var _ := PurgeExpiredLocked(now);
      if candidate.None? {
        return None;
      }
      ghost var live := registrations;
      r := Match(nodeName, candidate.value, now);
      HolderIsAccepted(live, registrations, r, nodeName, candidate.value, now, tokenTtl);
      if r.Some? {
        AcceptedIsJustified(old(past)[r.value.registrationId], tokenTtl, candidate.value, now);
      }
    }

    /** `stop_node`; note that it does not purge first. */
    method StopNode(registrationId: RegistrationId, generation: nat) returns (ok: bool)
      requires Valid()
      modifies `registrations, `nodes
      ensures Valid()
      ensures ok <==> registrationId in old(registrations) && old(registrations)[registrationId].token.generation == generation
      ensures registrations == if ok then old(registrations) - {registrationId} else old(registrations)
      ensures nodes == if ok then WithoutRegistration(old(nodes), registrationId) else old(nodes)
    {
      ok := Authorized(registrationId, generation);
      if ok {
        StopNodesForRegistration(registrationId);
        registrations := registrations - {registrationId};
      }
    }

    /** Under the next ID. */
    method StoreModule(bytes: seq<int>) returns (id: nat)
      requires Valid()
      modifies `modules, `nextModuleId, `issuedModules
      ensures Valid()
      ensures id == old(nextModuleId) && id !in old(issuedModules) && nextModuleId == id + 1
      ensures modules == old(modules)[id := bytes] && issuedModules == old(issuedModules) + {id}
    {
      id := nextModuleId;
      nextModuleId := nextModuleId + 1;
      modules := modules[id := bytes];
      issuedModules := issuedModules + {id};
    }

    /** `add_module`: the caller's authority is checked again after the upload. */
    method AddModule(registrationId: RegistrationId, generation: nat, bytes: seq<int>, now: nat) returns (r: Option<nat>)
      requires Valid()
      modifies `registrations, `nodes, `modules, `nextModuleId, `issuedModules
      ensures Valid()
      ensures r.Some? <==>
        registrationId in Live(old(registrations), now) && old(registrations)[registrationId].token.generation == generation
      ensures r.None? ==> PurgedOnly(now)
      ensures r.Some? ==>
        && r.value == old(nextModuleId) && r.value !in old(issuedModules) && nextModuleId == r.value + 1
        && modules == old(modules)[r.value := bytes]
        && registrations == Live(old(registrations), now) && nodes == NodesOf(old(nodes), registrations)
    {
      var _ := PurgeExpiredLocked(now);
      if !Authorized(registrationId, generation) {
        return None;
      }
      var id := StoreModule(bytes);
      return Some(id);
    }

    /** One request under the lifecycle lock. */
    method Handle(request: Request) returns (node: Option<NodeId>, uploaded: Option<nat>)
      requires Valid()
      modifies this
      ensures Valid() && issuedNodes >= old(issuedNodes) && issuedModules >= old(issuedModules)
      ensures node.Some? ==> node.value in issuedNodes && node.value !in old(issuedNodes)
      ensures uploaded.Some? ==> uploaded.value in modules && uploaded.value !in old(modules)
      ensures forall m :: m in old(modules) ==> m in modules && modules[m] == old(modules)[m]
    {
      node, uploaded := None, None;
      match request
      case Enrolment(nodeName, csrPem, certPem, bearer, now) =>
        var _ := Register(nodeName, csrPem, certPem, bearer, now);
      case Start(a, generation, address, attributes, before, after, signature) =>
        var started := StartNode(a, generation, address, attributes, before, after, signature);
        if started.Some? {
          node := Some(started.value.0);
        }
      case Rotate(a, generation, next, now) =>
        var _ := StageBearerRotation(a, generation, next, now);
      case Login(nodeName, candidate, now) =>
        var _ := Authenticate(nodeName, candidate, now);
      case Stop(a, generation) =>
        var _ := StopNode(a, generation);
      case Upload(a, generation, bytes, now) =>
        uploaded := AddModule(a, generation, bytes, now);
      case Sweep(now) =>
        var _ := PurgeExpiredLocked(now);
    }

    /** Over every run of requests no node ID and no module ID is handed out twice, and modules stay. */
    method Serve(requests: seq<Request>) returns (started: seq<NodeId>, uploaded: seq<nat>)
      requires Valid()
      modifies this
      ensures Valid()
      ensures Distinct(started) && Distinct(uploaded)
      ensures forall n :: n in started ==> n !in old(issuedNodes)
      ensures forall m :: m in uploaded ==> m in modules && m !in old(modules)
      ensures forall m :: m in old(modules) ==> m in modules && modules[m] == old(modules)[m]
      // names are unique; a registration has at most one node, and holds the certificate signed for it
      ensures forall a, b :: a in registrations && b in registrations && registrations[a].nodeName == registrations[b].nodeName ==> a == b
      ensures forall n, k :: n in nodes && k in nodes && nodes[n].registrationId == nodes[k].registrationId ==> n == k
      ensures forall n :: n in nodes ==>
        && 1 <= n <= MAX_NODE_ID && nodes[n].registrationId in registrations
        && var owner := registrations[nodes[n].registrationId]; owner.certPem == Signed(owner.csrPem, owner.nodeName, n)
    {
      started, uploaded := [], [];
      for k := 0 to |requests|
        invariant Valid() && issuedNodes >= old(issuedNodes) && issuedModules >= old(issuedModules)
        invariant Distinct(started) && Distinct(uploaded)
        invariant forall n :: n in started ==> n in issuedNodes && n !in old(issuedNodes)
        invariant forall m :: m in uploaded ==> m in modules && m !in old(modules)
        invariant forall m :: m in old(modules) ==> m in modules && modules[m] == old(modules)[m]
      {
        var node, module_ := Handle(requests[k]);
        if node.Some? {
          started := started + [node.value];
        }
        if module_.Some? {
          uploaded := uploaded + [module_.value];
        }
      }
    }
  }

  datatype Request =
    | Enrolment(nodeName: Uuid, csrPem: string, certPem: string, bearer: Option<Digest>, now: nat)
    | Start(registrationId: RegistrationId, generation: nat, address: string, attributes: map<string, string>,
            before: nat, after: nat, signature: bool)
    | Rotate(registrationId: RegistrationId, generation: nat, next: Digest, now: nat)
    | Login(nodeName: Uuid, candidate: Option<Digest>, now: nat)
    | Stop(registrationId: RegistrationId, generation: nat)
    | Upload(registrationId: RegistrationId, generation: nat, bytes: seq<int>, now: nat)
    | Sweep(now: nat)

  predicate Distinct(ids: seq<nat>) { forall i, j :: 0 <= i < j < |ids| ==> ids[i] != ids[j] }

  /** This registration has the name, and its verifier takes the bearer at this time. */
  predicate Accepts(r: Registered, nodeName: Uuid, candidate: Digest, now: nat, ttl: nat) {
    r.nodeName == nodeName && BearerToken.Authenticate(r.token, candidate, now, ttl).1.Some?
  }

  /** One live registration accepted the bearer, and nothing but its verifier moved. */
  predicate Accepted(live: Registrations, after: Registrations, r: Authenticated, nodeName: Uuid, candidate: Digest,
                     now: nat, ttl: nat)
  {
    var a := r.registrationId;
    && a in live && live[a].nodeName == nodeName
    && BearerToken.Authenticate(live[a].token, candidate, now, ttl).1 == Some(r.bearerGeneration)
    && after == live[a := live[a].(token := BearerToken.Authenticate(live[a].token, candidate, now, ttl).0)]
  }

  /** Names being unique, the answer is that of the one registration with the name. */
  lemma HolderIsAccepted(live: Registrations, after: Registrations, r: Option<Authenticated>, nodeName: Uuid, candidate: Digest,
                         now: nat, ttl: nat)
    requires UniqueNames(live) && TokensOk(live) && forall a :: a in live ==> !IsExpired(live[a].token, now)
    requires r.Some? <==> exists a :: a in live && Accepts(live[a], nodeName, candidate, now, ttl)
    requires r.Some? ==> Accepted(live, after, r.value, nodeName, candidate, now, ttl)
    ensures forall a :: a in live && live[a].nodeName == nodeName ==> Answers(live, after, r, a, candidate, now, ttl)
  {
    forall a | a in live && live[a].nodeName == nodeName ensures Answers(live, after, r, a, candidate, now, ttl) {
      if live[a].token.current == candidate || (live[a].token.pending == Some(candidate) && live[a].token.generation < U64_MAX) {
        assert Accepts(live[a], nodeName, candidate, now, ttl);
        assert r.value.registrationId == a;
      }
    }
  }

  /** What the live registration `a` makes of its current bearer, its pending one, and any other. */
  predicate Answers(live: Registrations, after: Registrations, r: Option<Authenticated>, a: RegistrationId, candidate: Digest,
                    now: nat, ttl: nat)
    requires a in live
  {
    var token := live[a].token;
    && (candidate == token.current ==>
          && r == Some(Authenticated(a, token.generation))
          && after == live[a := live[a].(token := Verifier(token.current, token.pending, token.generation, now + ttl))])
    && (token.pending == Some(candidate) && token.generation < U64_MAX ==>
          && r == Some(Authenticated(a, token.generation + 1))
          && after == live[a := live[a].(token := Verifier(candidate, None, token.generation + 1, now + ttl))])
    && (candidate != token.current && token.pending != Some(candidate) ==> r.None?)
  }

  lemma OpKeepsRegistrations(regs: Registrations, past: map<RegistrationId, Past>, next: nat, ttl: nat, a: RegistrationId, op: Op)
    requires RegistrationsOk(regs, past, next, ttl) && a in regs
    ensures RegistrationsOk(regs[a := regs[a].(token := After(regs[a].token, op, ttl).0)], Extend(past, a, op), next, ttl)
  {
    ExtendReplays(regs, past, ttl, a, op);
    assert WellFormed(After(regs[a].token, op, ttl).0);
  }

  lemma OpKeepsNodes(regs: Registrations, nodes: Nodes, issued: set<NodeId>, next: nat, a: RegistrationId, token: Verifier)
    requires NodesOk(regs, nodes, issued, next) && a in regs
    ensures NodesOk(regs[a := regs[a].(token := token)], nodes, issued, next)
  {
  }

  /** A new signed certificate replaces a registration's node by the one it names. */
  lemma CommitKeepsNodes(regs: Registrations, nodes: Nodes, issued: set<NodeId>, id: NodeId, cert: Certificate, details: NodeDetails)
    requires NodesOk(regs, nodes, issued, id) && id <= MAX_NODE_ID
    requires details.registrationId in regs
    requires cert == Signed(regs[details.registrationId].csrPem, regs[details.registrationId].nodeName, id)
    ensures var a := details.registrationId;
      NodesOk(regs[a := regs[a].(certPem := cert)], WithoutRegistration(nodes, a)[id := details], issued + {id}, id + 1)
  {
  }

  lemma CommitKeepsRegistrations(regs: Registrations, past: map<RegistrationId, Past>, next: nat, ttl: nat,
                                 a: RegistrationId, cert: Certificate)
    requires RegistrationsOk(regs, past, next, ttl) && a in regs
    ensures RegistrationsOk(regs[a := regs[a].(certPem := cert)], past, next, ttl)
  {
  }

  lemma NodesOfRemoved(nodes: Nodes, regs: Registrations, a: RegistrationId)
    ensures WithoutRegistration(NodesOf(nodes, regs), a) == NodesOf(nodes, regs - {a})
  {
  }

  lemma NodesOfTwice(nodes: Nodes, regs: Registrations, before: nat, after: nat)
    ensures var first := Live(regs, before); var second := Live(first, after);
      NodesOf(NodesOf(nodes, first), second) == NodesOf(nodes, second)
  {
  }
}
