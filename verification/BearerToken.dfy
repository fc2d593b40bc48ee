/** Two-phase bearer rotation of one registration: the token verifier and all its runs. */
module BearerToken {
  import opened Wrappers

  /** SHA-256 of a bearer; times and durations are whole ticks of a monotonic clock. */
  type Digest = nat

  datatype Verifier = Verifier(current: Digest, pending: Option<Digest>, generation: nat, expiresAt: nat)

  predicate WellFormed(v: Verifier) { v.pending != Some(v.current) && v.generation <= U64_MAX }

  function New(current: Digest, now: nat, ttl: nat): Verifier { Verifier(current, None, 0, now + ttl) }

  predicate IsExpired(v: Verifier, now: nat) { now > v.expiresAt }

  /** `TokenVerifier::authenticate`: the verifier after the call and the accepted generation. */
  function Authenticate(v: Verifier, candidate: Digest, now: nat, ttl: nat): (Verifier, Option<nat>) {
    if now > v.expiresAt then (v, None)
    else if v.current != candidate && v.pending != Some(candidate) then (v, None)
    else if v.pending == Some(candidate) then
      if v.generation == U64_MAX then (v, None)
      else (Verifier(candidate, None, v.generation + 1, now + ttl), Some(v.generation + 1))
    else (v.(expiresAt := now + ttl), Some(v.generation))
  }

  /** `TokenVerifier::stage_rotation`: the verifier after the call and the next generation, if staged. */
  function StageRotation(v: Verifier, expectedGeneration: nat, next: Digest): (Verifier, Option<nat>) {
    if v.generation != expectedGeneration || v.current == next then (v, None)
    else if v.pending.Some? && v.pending.value != next then (v, None)
    else (v.(pending := Some(next)), if v.generation == U64_MAX then None else Some(v.generation + 1))
  }

  /**
   A refused staging changes nothing, except that at the last generation the token is staged
   although the call is refused.
   */
  lemma RefusedStagingIsIdle(v: Verifier, expectedGeneration: nat, next: Digest)
    requires StageRotation(v, expectedGeneration, next).1 == None
    ensures StageRotation(v, expectedGeneration, next).0 == v <==>
      !(v.generation == U64_MAX == expectedGeneration && v.pending == None && v.current != next)
  {
  }

  // ---------------------------------------------------------------- runs

  datatype Op = Present(candidate: Digest, now: nat) | Stage(expectedGeneration: nat, next: Digest)

  function After(v: Verifier, op: Op, ttl: nat): (Verifier, Option<nat>) {
    match op
    case Present(candidate, now) => Authenticate(v, candidate, now, ttl)
    case Stage(expected, next) => StageRotation(v, expected, next)
  }

  /** The verifier after the first `|ops|` operations of a run that starts with `v`. */
  function Replay(v: Verifier, ops: seq<Op>, ttl: nat): Verifier {
    if ops == [] then v else After(Replay(v, ops[..|ops| - 1], ttl), ops[|ops| - 1], ttl).0
  }

  lemma ReplaySnoc(v: Verifier, ops: seq<Op>, op: Op, ttl: nat)
    ensures Replay(v, ops + [op], ttl) == After(Replay(v, ops, ttl), op, ttl).0
  {
    assert (ops + [op])[..|ops|] == ops;
  }

  /** Two bearers that take turns reach every generation, by staging and presenting. */
  lemma {:induction false} EveryGenerationIsReached(first: Digest, second: Digest, registered: nat, ttl: nat, generation: nat)
    returns (ops: seq<Op>)
    requires first != second && generation <= U64_MAX
    ensures Replay(New(first, registered, ttl), ops, ttl)
         == Verifier(if generation % 2 == 0 then first else second, None, generation, registered + ttl)
    decreases generation
  {
    ops := [];
    if generation > 0 {
      var before := EveryGenerationIsReached(first, second, registered, ttl, generation - 1);
      var next := if generation % 2 == 0 then first else second;
      var v := New(first, registered, ttl);
      ReplaySnoc(v, before, Stage(generation - 1, next), ttl);
      ReplaySnoc(v, before + [Stage(generation - 1, next)], Present(next, registered), ttl);
      ops := before + [Stage(generation - 1, next)] + [Present(next, registered)];
    }
  }

  /** The failing case, at the end of a run: refused as exhausted, and staged all the same. */
  lemma ExhaustedStagingStillStages(first: Digest, second: Digest, registered: nat, ttl: nat) returns (ops: seq<Op>)
    requires first != second
    ensures var v := Replay(New(first, registered, ttl), ops, ttl);
      v.pending == None && StageRotation(v, U64_MAX, first) == (v.(pending := Some(first)), None)
  {
    ops := EveryGenerationIsReached(first, second, registered, ttl, U64_MAX);
  }

  /** The operation promoted a pending token. */
  predicate Promotes(v: Verifier, op: Op, ttl: nat) {
    op.Present? && After(v, op, ttl).1.Some? && v.pending == Some(op.candidate)
  }

  function Promotions(v: Verifier, ops: seq<Op>, ttl: nat): nat {
    if ops == [] then 0
    else
      var front := ops[..|ops| - 1];
      Promotions(v, front, ttl) + (if Promotes(Replay(v, front, ttl), ops[|ops| - 1], ttl) then 1 else 0)
  }

  /** When a token was last accepted, or the registration made. */
  function LastSuccess(v: Verifier, registered: nat, ops: seq<Op>, ttl: nat): nat {
    if ops == [] then registered
    else
      var front, last := ops[..|ops| - 1], ops[|ops| - 1];
      if last.Present? && After(Replay(v, front, ttl), last, ttl).1.Some? then last.now
      else LastSuccess(v, registered, front, ttl)
  }

  /** The token promoted last, or the first one. */
  function LastPromoted(v: Verifier, ops: seq<Op>, ttl: nat): Digest {
    if ops == [] then v.current
    else
      var front, last := ops[..|ops| - 1], ops[|ops| - 1];
      if Promotes(Replay(v, front, ttl), last, ttl) then last.candidate else LastPromoted(v, front, ttl)
  }

  /**
   Over every run: the current token is the one promoted last, pending differs from it, generations
   count promotions, and leases renew only on success.
   */
  lemma {:induction false} RunInvariant(current: Digest, registered: nat, ttl: nat, ops: seq<Op>)
    ensures var v0 := New(current, registered, ttl); var v := Replay(v0, ops, ttl);
      && WellFormed(v)
      && v.current == LastPromoted(v0, ops, ttl)
      && v.generation == Promotions(v0, ops, ttl)
      && v.expiresAt == LastSuccess(v0, registered, ops, ttl) + ttl
  {
    if ops != [] {
      RunInvariant(current, registered, ttl, ops[..|ops| - 1]);
    }
  }

  /** No token authenticates more than one TTL after the last success or the registration. */
  lemma LeaseBoundsUse(current: Digest, registered: nat, ttl: nat, ops: seq<Op>, candidate: Digest, now: nat)
    requires var v0 := New(current, registered, ttl);
      Authenticate(Replay(v0, ops, ttl), candidate, now, ttl).1.Some?
    ensures now <= LastSuccess(New(current, registered, ttl), registered, ops, ttl) + ttl
  {
    RunInvariant(current, registered, ttl, ops);
  }

  /**
   After every run, the token promoted last is accepted for one TTL after the last success, at the
   generation that counts the promotions; it renews the lease and moves nothing else.
   */
  lemma CurrentIsAccepted(current: Digest, registered: nat, ttl: nat, ops: seq<Op>, now: nat)
    requires now <= LastSuccess(New(current, registered, ttl), registered, ops, ttl) + ttl
    ensures var v0 := New(current, registered, ttl); var v := Replay(v0, ops, ttl);
      && Authenticate(v, LastPromoted(v0, ops, ttl), now, ttl).1 == Some(Promotions(v0, ops, ttl))
      && Authenticate(v, LastPromoted(v0, ops, ttl), now, ttl).0 == Verifier(v.current, v.pending, v.generation, now + ttl)
  {
    RunInvariant(current, registered, ttl, ops);
  }

  /** After every run, exactly these tokens are accepted; a refused one changes nothing. */
  lemma AcceptanceDecided(current: Digest, registered: nat, ttl: nat, ops: seq<Op>, candidate: Digest, now: nat)
    ensures var v0 := New(current, registered, ttl); var v := Replay(v0, ops, ttl);
      && (Authenticate(v, candidate, now, ttl).1.Some? <==>
            && now <= LastSuccess(v0, registered, ops, ttl) + ttl
            && (|| candidate == LastPromoted(v0, ops, ttl)
                || (v.pending == Some(candidate) && Promotions(v0, ops, ttl) < U64_MAX)))
      && (Authenticate(v, candidate, now, ttl).1.None? ==> Authenticate(v, candidate, now, ttl).0 == v)
  {
    RunInvariant(current, registered, ttl, ops);
  }

  /**
   After every run a staging succeeds exactly if it names the generation that counts the promotions,
   brings a token that is not current, and no other one is staged; it promises the next generation,
   and the current token and its lease stay.
   */
  lemma StagingDecided(current: Digest, registered: nat, ttl: nat, ops: seq<Op>, expectedGeneration: nat, next: Digest)
    ensures var v0 := New(current, registered, ttl); var v := Replay(v0, ops, ttl);
      var (staged, answer) := StageRotation(v, expectedGeneration, next);
      && (answer.Some? <==>
            && expectedGeneration == Promotions(v0, ops, ttl) && expectedGeneration < U64_MAX
            && next != LastPromoted(v0, ops, ttl) && (v.pending == None || v.pending == Some(next)))
      && (answer.Some? ==>
            && answer.value == Promotions(v0, ops, ttl) + 1
            && staged == Verifier(LastPromoted(v0, ops, ttl), Some(next), expectedGeneration,
                                  LastSuccess(v0, registered, ops, ttl) + ttl))
  {
    RunInvariant(current, registered, ttl, ops);
  }

  lemma StagedStep(v: Verifier, op: Op, ttl: nat, d: Digest)
    requires v.pending == Some(d) && !Promotes(v, op, ttl)
    ensures var w := After(v, op, ttl).0; w.pending == Some(d) && w.current == v.current && w.generation == v.generation
  {
  }

  /**
   Whatever is presented or staged meanwhile, a staged token stays staged, and the tokens and the
   generation stay as they were, until the staged token itself is accepted.
   */
  lemma {:induction false} StagedStays(v: Verifier, ops: seq<Op>, ttl: nat, d: Digest)
    requires v.pending == Some(d)
    requires forall k :: 0 <= k < |ops| ==> !Promotes(Replay(v, ops[..k], ttl), ops[k], ttl)
    ensures var w := Replay(v, ops, ttl); w.pending == Some(d) && w.current == v.current && w.generation == v.generation
  {
    if ops != [] {
      var n := |ops| - 1;
      var front := ops[..n];
      assert forall k :: 0 <= k < n ==> front[k] == ops[k] && front[..k] == ops[..k];
      StagedStays(v, front, ttl, d);
      StagedStep(Replay(v, front, ttl), ops[n], ttl, d);
    }
  }

  /** So a rotation that was staged completes whenever its token is presented in time, and retires the old token. */
  lemma RotationCompletes(v: Verifier, ops: seq<Op>, ttl: nat, d: Digest, now: nat, later: nat)
    requires WellFormed(v) && v.pending == Some(d) && v.generation < U64_MAX
    requires forall k :: 0 <= k < |ops| ==> !Promotes(Replay(v, ops[..k], ttl), ops[k], ttl)
    requires !IsExpired(Replay(v, ops, ttl), now)
    ensures var done := Authenticate(Replay(v, ops, ttl), d, now, ttl);
      && done == (Verifier(d, None, v.generation + 1, now + ttl), Some(v.generation + 1))
      && Authenticate(done.0, v.current, later, ttl) == (done.0, None)
  {
    StagedStays(v, ops, ttl, d);
  }

  lemma StepNeedsStaging(v: Verifier, op: Op, ttl: nat, d: Digest)
    requires v.pending != Some(d) && op != Stage(v.generation, d)
    ensures After(v, op, ttl).0.pending != Some(d)
  {
  }

  /** A run without a staging of `d` never makes `d` pending. */
  lemma {:induction false} PendingNeedsStaging(v: Verifier, ops: seq<Op>, ttl: nat, d: Digest)
    requires v.pending != Some(d)
    requires forall k :: 0 <= k < |ops| ==> ops[k] != Stage(Replay(v, ops[..k], ttl).generation, d)
    ensures Replay(v, ops, ttl).pending != Some(d)
  {
    if ops != [] {
      var front := ops[..|ops| - 1];
      assert forall k :: 0 <= k < |front| ==> front[k] == ops[k] && front[..k] == ops[..k];
      PendingNeedsStaging(v, front, ttl, d);
      StepNeedsStaging(Replay(v, front, ttl), ops[|front|], ttl, d);
    }
  }

  /**
   A token that has been replaced is refused until someone stages it again: if `d` was current
   before `ops` and is accepted after them without being current, `ops` staged it.
   */
  lemma ReplacedTokenRefused(v: Verifier, ops: seq<Op>, ttl: nat, d: Digest, now: nat)
    requires WellFormed(v) && v.current == d
    requires Replay(v, ops, ttl).current != d
    requires Authenticate(Replay(v, ops, ttl), d, now, ttl).1.Some?
    ensures exists k :: 0 <= k < |ops| && ops[k] == Stage(Replay(v, ops[..k], ttl).generation, d)
  {
    if forall k :: 0 <= k < |ops| ==> ops[k] != Stage(Replay(v, ops[..k], ttl).generation, d) {
      PendingNeedsStaging(v, ops, ttl, d);
    }
  }

  lemma {:induction false} ReplaySplit(v: Verifier, ops: seq<Op>, ttl: nat, j: nat)
    requires j <= |ops|
    ensures Replay(v, ops, ttl) == Replay(Replay(v, ops[..j], ttl), ops[j..], ttl)
    decreases |ops|
  {
    if j < |ops| {
      var n := |ops| - 1;
      ReplaySplit(v, ops[..n], ttl, j);
      assert ops[..n][..j] == ops[..j] && ops[..n][j..] == ops[j..][..n - j];
    } else {
      assert ops[..j] == ops;
    }
  }

  /** The operation staged `d` at the generation then current. */
  predicate Stages(v: Verifier, ops: seq<Op>, ttl: nat, k: nat, d: Digest)
    requires k < |ops|
  {
    ops[k] == Stage(Replay(v, ops[..k], ttl).generation, d)
  }

  /** Every token that is ever current or pending was there from the start or was staged. */
  lemma {:induction false} HeldWasIssued(v: Verifier, ops: seq<Op>, ttl: nat, d: Digest)
    requires v.pending == None && d != v.current
    requires forall k :: 0 <= k < |ops| ==> !Stages(v, ops, ttl, k, d)
    ensures var w := Replay(v, ops, ttl); w.current != d && w.pending != Some(d)
  {
    if ops != [] {
      var n := |ops| - 1;
      var front := ops[..n];
      forall k | 0 <= k < n ensures !Stages(v, front, ttl, k, d) {
        assert !Stages(v, ops, ttl, k, d) && front[..k] == ops[..k];
      }
      HeldWasIssued(v, front, ttl, d);
      assert !Stages(v, ops, ttl, n, d);
    }
  }

  /** `d` was current after `j` operations, is not any more, and has been staged again since. */
  ghost predicate RestagedSince(v: Verifier, ops: seq<Op>, ttl: nat, j: nat, d: Digest)
    requires j <= |ops|
  {
    exists k :: j <= k < |ops| && Stages(v, ops, ttl, k, d)
  }

  lemma ReplacedNeedsRestaging(v: Verifier, ops: seq<Op>, ttl: nat, j: nat, d: Digest, now: nat)
    requires j <= |ops| && WellFormed(Replay(v, ops[..j], ttl)) && Replay(v, ops[..j], ttl).current == d
    requires Replay(v, ops, ttl).current != d && Authenticate(Replay(v, ops, ttl), d, now, ttl).1.Some?
    ensures RestagedSince(v, ops, ttl, j, d)
  {
    var u, rest := Replay(v, ops[..j], ttl), ops[j..];
    ReplaySplit(v, ops, ttl, j);
    ReplacedTokenRefused(u, rest, ttl, d, now);
    var k :| 0 <= k < |rest| && rest[k] == Stage(Replay(u, rest[..k], ttl).generation, d);
    assert ops[..j + k][..j] == ops[..j] && ops[..j + k][j..] == rest[..k];
    ReplaySplit(v, ops[..j + k], ttl, j);
    assert Stages(v, ops, ttl, j + k, d);
  }
}
