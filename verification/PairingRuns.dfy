/**
  Every run of pairing-code calls, with any save failing and restarts in between: what each reachable
  store looks like, and how long a code handed out by Create stays claimable.
 */
module PairingRuns {
  import opened Wrappers
  import opened Snapshots
  import opened Pairings
  import Text

  /** The random parts of a call are inputs: the ten code draws, the new id, and the pick among equally
      new candidates. */
  datatype Step =
    | CreateStep(installation: string, channel: string, ttl: Time, now: Time, tries: seq<string>, id: string,
        saveOk: bool)
    | ClaimStep(raw: string, pick: string, now: Time, saveOk: bool)
    | RemoveStep(installation: string, now: Time, saveOk: bool)
    | RestartStep(now: Time)

  /** The store, every id drawn so far, the ids successfully claimed in order, and the clock. */
  datatype Journal = Journal(k: Kept<Codes>, used: set<string>, claims: seq<string>, clock: Time)

  predicate Enabled(sha: string -> string, j: Journal, step: Step) {
    && step.now >= j.clock
    && (step.CreateStep? ==> step.id !in j.used && |step.tries| == TRIES)
    && (step.ClaimStep? ==> CanPick(sha, j.k.mem, step.raw, step.pick))
  }

  function Next(sha: string -> string, j: Journal, step: Step): Journal {
    if !Enabled(sha, j, step) then j
    else match step
      case CreateStep(installation, channel, ttl, now, tries, id, saveOk) =>
        var (k, result) := Create(sha, true, j.k, installation, channel, ttl, now, tries, id, saveOk);
        Journal(k, j.used + {id}, j.claims, now)
      case ClaimStep(raw, pick, now, saveOk) =>
        var (k, result) := Claim(sha, true, j.k, raw, pick, now, saveOk);
        Journal(k, j.used, if result.Claimed? then j.claims + [result.code.id] else j.claims, now)
      case RemoveStep(installation, now, saveOk) => Journal(Remove(true, j.k, installation, saveOk).0, j.used, j.claims,
          now)
      case RestartStep(now) => Journal(Restart(true, j.k), j.used, j.claims, now)
  }

  function Run(sha: string -> string, j: Journal, steps: seq<Step>): Journal {
    if steps == [] then j else Next(sha, Run(sha, j, steps[..|steps| - 1]), steps[|steps| - 1])
  }

  function Start(now: Time): Journal {
    Journal(Kept(map[], None), {}, [], now)
  }

  predicate CodeOk(j: Journal, id: string)
    requires id in j.k.mem
  {
    var c := j.k.mem[id];
    && c.id == id && id in j.used && c.createdAt <= j.clock && c.createdAt < c.expiresAt
    && (c.claimedAt.None? <==> c.attempts == 0) && c.attempts <= MAX_ATTEMPTS
    && (id in j.claims <==> c.claimedAt.Some?)
    && (c.claimedAt.Some? ==> c.createdAt <= c.claimedAt.value < c.expiresAt && c.claimedAt.value <= j.clock)
  }

  /** Unclaimed codes: one per installation and one per hash. */
  predicate UnclaimedUnique(codes: Codes) {
    forall p, q | p in codes && q in codes && p != q && codes[p].claimedAt.None? && codes[q].claimedAt.None? ::
      codes[p].installation != codes[q].installation && codes[p].hash != codes[q].hash
  }

  predicate Inv(j: Journal) {
    && (forall id <- j.k.mem :: CodeOk(j, id))
    && UnclaimedUnique(j.k.mem)
    && (forall a, b | 0 <= a < b < |j.claims| :: j.claims[a] != j.claims[b])
    && (forall id <- j.claims :: id in j.used)
    && (j.k.saved == Some(j.k.mem) || (j.k.saved.None? && j.k.mem == map[]))
  }

  lemma CreateKeepsInv(sha: string -> string, j: Journal, step: Step)
    requires Inv(j) && Enabled(sha, j, step) && step.CreateStep?
    ensures Inv(Next(sha, j, step))
  {
    var j' := Next(sha, j, step);
    if j'.k != j.k {
      var room := DropUnclaimed(Prune(j.k.mem, step.now), Text.Trim(step.installation));
      FirstFreeMeaning(sha, room, step.tries, step.now);
      forall id <- j'.k.mem ensures CodeOk(j', id) {
        if id != step.id { assert CodeOk(j, id); }
      }
    } else {
      forall id <- j'.k.mem ensures CodeOk(j', id) { assert CodeOk(j, id); }
    }
  }

  /** A claim leaves the codes alone, removes the picked one, or counts the attempt and may mark it claimed. */
  lemma ClaimShape(sha: string -> string, j: Journal, step: Step)
    requires Enabled(sha, j, step) && step.ClaimStep?
    ensures var j', pick := Next(sha, j, step), step.pick;
            && j'.used == j.used && j'.clock == step.now
            && ((j'.k == j.k && j'.claims == j.claims) ||
                (pick in j.k.mem && j.k.mem[pick].attempts < MAX_ATTEMPTS && j'.k.saved == Some(j'.k.mem) &&
                 var code := j.k.mem[pick];
                 var tried := code.(attempts := code.attempts + 1);
                 || (code.claimedAt.None? && code.expiresAt <= step.now && j'.claims == j.claims
                     && j'.k.mem == j.k.mem - {pick})
                 || (code.claimedAt.Some? && j'.claims == j.claims && j'.k.mem == j.k.mem[pick := tried])
                 || (code.claimedAt.None? && step.now < code.expiresAt && j'.claims == j.claims + [code.id]
                     && j'.k.mem == j.k.mem[pick := tried.(claimedAt := Some(step.now))])))
  {
    hide Normalize, HashCode, HasHash, CanPick;
  }

  lemma ClaimKeepsInv(sha: string -> string, j: Journal, step: Step)
    requires Inv(j) && Enabled(sha, j, step) && step.ClaimStep?
    ensures Inv(Next(sha, j, step))
  {
    hide Next, CanPick;
    ClaimShape(sha, j, step);
    var j' := Next(sha, j, step);
    if step.pick in j.k.mem { assert CodeOk(j, step.pick); }
    forall id <- j'.k.mem ensures CodeOk(j', id) { assert CodeOk(j, id); }
  }

  lemma OtherKeepsInv(sha: string -> string, j: Journal, step: Step)
    requires Inv(j) && Enabled(sha, j, step) && (step.RemoveStep? || step.RestartStep?)
    ensures Inv(Next(sha, j, step))
  {
    var j' := Next(sha, j, step);
    forall id <- j'.k.mem ensures CodeOk(j', id) { assert CodeOk(j, id); }
  }

  lemma StepKeepsInv(sha: string -> string, j: Journal, step: Step)
    requires Inv(j)
    ensures Inv(Next(sha, j, step))
  {
    if Enabled(sha, j, step) {
      match step
      case CreateStep(_, _, _, _, _, _, _) => CreateKeepsInv(sha, j, step);
      case ClaimStep(_, _, _, _) => ClaimKeepsInv(sha, j, step);
      case _ => OtherKeepsInv(sha, j, step);
    }
  }

  /** On every run with failed saves and restarts: each id is successfully claimed at most once, a
      stored code is unclaimed exactly when its attempts are zero, attempts never pass six, and no two
      unclaimed codes share an installation or a hash. A restart loses nothing. */
  lemma {:induction false} PairingInvariant(sha: string -> string, now: Time, steps: seq<Step>)
    ensures var j := Run(sha, Start(now), steps); Inv(j) && Restart(true, j.k) == j.k
  {
    if steps != [] {
      PairingInvariant(sha, now, steps[..|steps| - 1]);
      StepKeepsInv(sha, Run(sha, Start(now), steps[..|steps| - 1]), steps[|steps| - 1]);
    }
  }

  // ---------------------------------------------------------------- a code stays claimable

  /** The code is stored untouched and newer than anything else with its hash. */
  predicate Claimable(j: Journal, code: Code) {
    && code.id in j.k.mem && j.k.mem[code.id] == code && code.claimedAt.None? && code.attempts == 0
    && forall id | id in j.k.mem && id != code.id
       && j.k.mem[id].hash == code.hash :: j.k.mem[id].createdAt < code.createdAt
  }

  /** The calls that end a code's life on purpose: its installation replaces or removes it. */
  predicate Disturbs(sha: string -> string, j: Journal, step: Step, installation: string) {
    Enabled(sha, j, step) &&
    match step
    case CreateStep(i, channel, ttl, now, tries, id, saveOk) =>
      Text.Trim(i) == installation && Create(sha, true, j.k, i, channel, ttl, now, tries, id, saveOk).1.Created?
    case RemoveStep(i, now, saveOk) => Text.Trim(i) == installation && Remove(true, j.k, i, saveOk).1
    case _ => false
  }

  predicate Undisturbed(sha: string -> string, j: Journal, steps: seq<Step>, installation: string) {
    steps == [] ||
    var front := steps[..|steps| - 1];
    Undisturbed(sha, j, front, installation) && !Disturbs(sha, Run(sha, j, front), steps[|steps| - 1], installation)
  }

  lemma CreateKeepsClaimable(sha: string -> string, j: Journal, step: Step, code: Code)
    requires Inv(j) && Claimable(j, code) && Enabled(sha, j, step) && step.CreateStep?
    requires !Disturbs(sha, j, step, code.installation) && step.now < code.expiresAt
    ensures Claimable(Next(sha, j, step), code)
  {
    assert CodeOk(j, code.id);
    var room := DropUnclaimed(Prune(j.k.mem, step.now), Text.Trim(step.installation));
    FirstFreeMeaning(sha, room, step.tries, step.now);
    if Next(sha, j, step).k != j.k { assert room[code.id] == code; }
  }

  lemma StepKeepsClaimable(sha: string -> string, j: Journal, step: Step, code: Code)
    requires Inv(j) && Claimable(j, code) && !Disturbs(sha, j, step, code.installation)
    requires Next(sha, j, step).clock < code.expiresAt
    ensures var j' := Next(sha, j, step); Claimable(j', code) || code.id in j'.claims
  {
    hide Create, Text.Trim;
    assert CodeOk(j, code.id);
    if Enabled(sha, j, step) && step.CreateStep? { CreateKeepsClaimable(sha, j, step, code); }
  }

  lemma {:induction false} RunKeepsClaimable(sha: string -> string, j: Journal, steps: seq<Step>, code: Code)
    requires Inv(j) && Claimable(j, code) && Undisturbed(sha, j, steps, code.installation)
    requires Run(sha, j, steps).clock < code.expiresAt
    ensures var j' := Run(sha, j, steps);
            Inv(j') && j.clock <= j'.clock && (Claimable(j', code) || code.id in j'.claims)
  {
    if steps != [] {
      var front := steps[..|steps| - 1];
      RunKeepsClaimable(sha, j, front, code);
      var mid := Run(sha, j, front);
      StepKeepsInv(sha, mid, steps[|steps| - 1]);
      if code.id !in mid.claims { StepKeepsClaimable(sha, mid, steps[|steps| - 1], code); }
    }
  }

  // ---------------------------------------------------------------- expiry

  lemma StepKeepsGone(sha: string -> string, j: Journal, step: Step, id: string)
    requires Inv(j) && id in j.used && id !in j.k.mem
    ensures var j' := Next(sha, j, step); id in j'.used && id !in j'.k.mem && (id !in j.claims ==> id !in j'.claims)
  {
    hide FirstFree, HashCode, CanPick, HasHash, Normalize, Text.Trim;
    if Enabled(sha, j, step) && step.ClaimStep? {
      ClaimShape(sha, j, step);
      if step.pick in j.k.mem { assert CodeOk(j, step.pick); }
    }
  }

  lemma {:induction false} GoneStaysGone(sha: string -> string, j: Journal, steps: seq<Step>, id: string)
    requires Inv(j) && id in j.used && id !in j.k.mem && id !in j.claims
    ensures var j' := Run(sha, j, steps); Inv(j') && id in j'.used && id !in j'.k.mem && id !in j'.claims
  {
    if steps != [] {
      var front := steps[..|steps| - 1];
      GoneStaysGone(sha, j, front, id);
      StepKeepsInv(sha, Run(sha, j, front), steps[|steps| - 1]);
      StepKeepsGone(sha, Run(sha, j, front), steps[|steps| - 1], id);
    }
  }

  lemma ExpiredGoes(sha: string -> string, j: Journal, claim: Step)
    requires Inv(j) && claim.ClaimStep? && Enabled(sha, j, claim) && claim.saveOk && claim.pick in j.k.mem
    requires var code := j.k.mem[claim.pick];
             code.claimedAt.None? && code.expiresAt <= claim.now && HashCode(sha, claim.raw) == code.hash != ""
    ensures Claim(sha, true, j.k, claim.raw, claim.pick, claim.now, true).1 == Expired
    ensures var j' := Next(sha, j, claim);
            claim.pick in j'.used && claim.pick !in j'.k.mem && claim.pick !in j'.claims
  {
    hide Normalize;
    assert CodeOk(j, claim.pick);
    HashOfNormal(sha, claim.raw);
    hide HashCode;
  }

  /** A code is claimed before it expires or never. Once its time is over, the claim that picks it is answered Expired,
      the code is gone after it, and no later call brings it back or claims it. */
  lemma ExpiredForGood(sha: string -> string, now: Time, before: seq<Step>, claim: Step, after: seq<Step>)
    requires claim.ClaimStep? && Enabled(sha, Run(sha, Start(now), before), claim)
    ensures var j := Run(sha, Start(now), before);
            var result := Claim(sha, true, j.k, claim.raw, claim.pick, claim.now, claim.saveOk).1;
            && (result.Claimed? ==>
                  && claim.now < result.code.expiresAt && result.code.claimedAt == Some(claim.now)
                  && result.code.id == claim.pick && claim.pick in j.k.mem && claim.pick !in j.claims)
            && (claim.pick in j.k.mem && j.k.mem[claim.pick].claimedAt.None? && claim.saveOk
                && j.k.mem[claim.pick].expiresAt <= claim.now
                && HashCode(sha, claim.raw) == j.k.mem[claim.pick].hash != "" ==>
                  && result == Expired
                  && var j' := Run(sha, Next(sha, j, claim), after);
                     claim.pick !in j'.k.mem && claim.pick !in j'.claims)
  {
    var j, pick := Run(sha, Start(now), before), claim.pick;
    PairingInvariant(sha, now, before);
    ClaimKeepsPromise(sha, true, j.k, claim.raw, pick, claim.now, claim.saveOk);
    StepKeepsInv(sha, j, claim);
    if pick in j.k.mem {
      assert CodeOk(j, pick);
      if j.k.mem[pick].claimedAt.None? && claim.saveOk && j.k.mem[pick].expiresAt <= claim.now
         && HashCode(sha, claim.raw) == j.k.mem[pick].hash != ""
      {
        ExpiredGoes(sha, j, claim);
        GoneStaysGone(sha, Next(sha, j, claim), after, pick);
      }
    }
  }

  /** A claimable code is what any text of its digits claims, whichever way the map is ranged over. */
  lemma ClaimYields(sha: string -> string, j: Journal, code: Code, clear: string, raw: string, pick: string, now: Time)
    requires Claimable(j, code) && j.clock <= now < code.expiresAt
    requires Normalize(clear).Some? && Normalize(raw) == Normalize(clear)
    requires code.hash == HashCode(sha, clear) && code.hash != ""
    requires CanPick(sha, j.k.mem, raw, pick)
    ensures pick == code.id
    ensures Claim(sha, true, j.k, raw, pick, now, true).1 == Claimed(code.(attempts := 1, claimedAt := Some(now)))
  {
    NormalizeStable(clear);
    assert j.k.mem[code.id].hash == code.hash;
    assert HasHash(j.k.mem, code.hash);
  }

  function CreateOutcome(sha: string -> string, j: Journal, step: Step): CreateResult
    requires step.CreateStep? && |step.tries| == TRIES
  {
    Create(sha, true, j.k, step.installation, step.channel, step.ttl, step.now, step.tries, step.id, step.saveOk).1
  }

  /** No code with the drawn hash survives that was created at this very instant. The installation's own unclaimed
      code does not survive. */
  predicate DistinctInstant(codes: Codes, hash: string, installation: string, now: Time) {
    forall id | id in codes && codes[id].hash == hash && codes[id].expiresAt > now ::
      codes[id].createdAt != now || (codes[id].installation == installation && codes[id].claimedAt.None?)
  }

  predicate CreatedApart(sha: string -> string, j: Journal, step: Step)
    requires step.CreateStep? && |step.tries| == TRIES && CreateOutcome(sha, j, step).Created?
  {
    DistinctInstant(j.k.mem, HashCode(sha, CreateOutcome(sha, j, step).clear), Text.Trim(step.installation), step.now)
  }

  lemma CreateShape(sha: string -> string, j: Journal, step: Step)
    requires Inv(j) && step.CreateStep? && Enabled(sha, j, step) && CreateOutcome(sha, j, step).Created?
    ensures var r, j' := CreateOutcome(sha, j, step), Next(sha, j, step);
            var room := DropUnclaimed(Prune(j.k.mem, step.now), Text.Trim(step.installation));
            && r.code.id == step.id && step.id !in room && j'.k.mem == room[step.id := r.code]
            && r.code.hash == HashCode(sha, r.clear) && r.code.hash != "" && Normalize(r.clear).Some?
            && r.code.createdAt == step.now && r.code.claimedAt.None? && r.code.attempts == 0
            && r.code.installation == Text.Trim(step.installation)
            && (forall id <- room :: room[id].createdAt <= step.now)
  {
    var room := DropUnclaimed(Prune(j.k.mem, step.now), Text.Trim(step.installation));
    FirstFreeMeaning(sha, room, step.tries, step.now);
    forall id <- room ensures CodeOk(j, id) && room[id].createdAt <= step.now { }
  }

  lemma CreateMakesNewest(sha: string -> string, j: Journal, step: Step)
    requires Inv(j) && step.CreateStep? && Enabled(sha, j, step) && CreateOutcome(sha, j, step).Created?
    requires CreatedApart(sha, j, step)
    ensures Claimable(Next(sha, j, step), CreateOutcome(sha, j, step).code)
  {
    hide Create, HashCode, FirstFree;
    CreateShape(sha, j, step);
    var r, j' := CreateOutcome(sha, j, step), Next(sha, j, step);
    forall id | id in j'.k.mem && id != r.code.id && j'.k.mem[id].hash == r.code.hash
      ensures j'.k.mem[id].createdAt < r.code.createdAt
    {
      assert id in j.k.mem && j'.k.mem[id] == j.k.mem[id];
    }
  }

  /** The id of a surviving code of the same hash and instant. */
  lemma TiedCode(sha: string -> string, j: Journal, step: Step) returns (tied: string)
    requires Inv(j) && step.CreateStep? && Enabled(sha, j, step) && CreateOutcome(sha, j, step).Created?
    requires !CreatedApart(sha, j, step)
    ensures var r, j' := CreateOutcome(sha, j, step), Next(sha, j, step);
            && tied in j'.k.mem && tied != r.code.id && IsNewest(j'.k.mem, r.code.hash, tied)
            && j'.k.mem[tied].id == tied
  {
    hide Create, HashCode, FirstFree;
    CreateShape(sha, j, step);
    var r := CreateOutcome(sha, j, step);
    tied :| tied in j.k.mem && j.k.mem[tied].hash == r.code.hash && j.k.mem[tied].expiresAt > step.now
            && j.k.mem[tied].createdAt == step.now
            && !(j.k.mem[tied].installation == r.code.installation && j.k.mem[tied].claimedAt.None?);
    assert CodeOk(j, tied);
  }

  /** What a claim of the fresh code answers under every map order. */
  ghost predicate AlwaysClaims(sha: string -> string, k: Kept<Codes>, raw: string, now: Time, code: Code) {
    forall pick | CanPick(sha, k.mem, raw, pick) ::
      Claim(sha, true, k, raw, pick, now, true).1 == Claimed(code.(attempts := 1, claimedAt := Some(now)))
  }

  /** A fresh code answers to its digits under every map order, at any time before it expires, exactly when no surviving
      code of the drawn hash was created at the same instant. */
  lemma CreateGivesClaimable(sha: string -> string, j: Journal, step: Step, raw: string, now: Time)
    requires Inv(j) && step.CreateStep? && Enabled(sha, j, step) && CreateOutcome(sha, j, step).Created?
    requires step.now <= now < CreateOutcome(sha, j, step).code.expiresAt
    requires Normalize(raw) == Normalize(CreateOutcome(sha, j, step).clear)
    ensures AlwaysClaims(sha, Next(sha, j, step).k, raw, now, CreateOutcome(sha, j, step).code)
            <==> CreatedApart(sha, j, step)
  {
    CreateShape(sha, j, step);
    var r, j' := CreateOutcome(sha, j, step), Next(sha, j, step);
    if CreatedApart(sha, j, step) {
      CreateMakesNewest(sha, j, step);
      forall pick | CanPick(sha, j'.k.mem, raw, pick) { ClaimYields(sha, j', r.code, r.clear, raw, pick, now); }
    } else {
      var tied := TiedCode(sha, j, step);
      NormalizeStable(r.clear);
      assert HashCode(sha, Normalize(raw).value) == r.code.hash;
      hide CreateOutcome, Next, Normalize, CreatedApart, HashCode;
      TiedPick(sha, j'.k, raw, r.code.hash, tied, now);
      assert Claim(sha, true, j'.k, raw, tied, now, true).1 != Claimed(r.code.(attempts := 1, claimedAt := Some(now)));
    }
  }

  lemma TiedPick(sha: string -> string, k: Kept<Codes>, raw: string, hash: string, tied: string, now: Time)
    requires Normalize(raw).Some? && HashCode(sha, Normalize(raw).value) == hash
    requires IsNewest(k.mem, hash, tied) && k.mem[tied].id == tied
    ensures CanPick(sha, k.mem, raw, tied)
    ensures var result := Claim(sha, true, k, raw, tied, now, true).1; result.Claimed? ==> result.code.id == tied
  {
    hide Normalize, HashCode;
  }

  /** A code returned by Create can be claimed with its clear text at any time before it expires, and
      yields that pairing, unless it was claimed, or replaced or removed by its own installation. The
      draw must not meet a surviving code of the same hash created at the same instant. */
  lemma CodeStaysClaimable(sha: string -> string, start: Time, before: seq<Step>, create: Step, after: seq<Step>,
                           raw: string, pick: string, now: Time)
    requires var j := Run(sha, Start(start), before);
             && create.CreateStep? && Enabled(sha, j, create)
             && var result := CreateOutcome(sha, j, create);
             && result.Created?
             && Normalize(raw).Some? && Normalize(raw) == Normalize(result.clear)
             && CreatedApart(sha, j, create)
             && var j1 := Next(sha, j, create);
             && Undisturbed(sha, j1, after, result.code.installation)
             && Run(sha, j1, after).clock <= now < result.code.expiresAt
             && CanPick(sha, Run(sha, j1, after).k.mem, raw, pick)
    ensures var j := Run(sha, Start(start), before);
            var code := CreateOutcome(sha, j, create).code;
            var j2 := Run(sha, Next(sha, j, create), after);
            || code.id in j2.claims
            || Claim(sha, true, j2.k, raw, pick, now, true).1 == Claimed(code.(attempts := 1, claimedAt := Some(now)))
  {
    var j := Run(sha, Start(start), before);
    PairingInvariant(sha, start, before);
    var result := CreateOutcome(sha, j, create);
    CreateShape(sha, j, create);
    CreateMakesNewest(sha, j, create);
    CreateKeepsInv(sha, j, create);
    var j1 := Next(sha, j, create);
    RunKeepsClaimable(sha, j1, after, result.code);
    var j2 := Run(sha, j1, after);
    if result.code.id !in j2.claims { ClaimYields(sha, j2, result.code, result.clear, raw, pick, now); }
  }

  /** A tie does misfire: with three calls at one instant two installations come to share a hash, and the
      map order may then lead the second one's code to "already claimed". */
  lemma TieCanMisfire(sha: string -> string, tries: seq<string>)
    requires |tries| == TRIES && tries[0] == "1234" && sha("1234") != ""
    ensures var create := CreateStep("b", "cb", 0, 0, tries, "2", true);
            var before := [CreateStep("a", "ca", 0, 0, tries, "1", true), ClaimStep("1234", "1", 0, true)];
            var j := Run(sha, Start(0), before);
            var j1 := Next(sha, j, create);
            && Enabled(sha, j, create) && CreateOutcome(sha, j, create).Created?
               && CreateOutcome(sha, j, create).clear == "1234"
            && CanPick(sha, j1.k.mem, "1234", "1")
            && Claim(sha, true, j1.k, "1234", "1", 0, true).1 == AlreadyClaimed
  {
    hide Next, Enabled, CreateOutcome, CanPick, Claim;
    var a, claim := CreateStep("a", "ca", 0, 0, tries, "1", true), ClaimStep("1234", "1", 0, true);
    FirstTaken(sha, tries);
    SecondTied(sha, tries, Next(sha, Next(sha, Start(0), a), claim));
    assert [a, claim][..1] == [a] && [a][..0] == [];
    assert Run(sha, Start(0), [a][..0]) == Start(0);
    assert Run(sha, Start(0), [a]) == Next(sha, Start(0), a);
  }

  /** Installation "b" draws the same code at the same instant. */
  lemma SecondTied(sha: string -> string, tries: seq<string>, j: Journal)
    requires |tries| == TRIES && tries[0] == "1234" && sha("1234") != ""
    requires j.k.mem == map["1" := Code("1", "a", "ca", sha("1234"), 0, DEFAULT_TTL, Some(0), 1)]
    requires j.used == {"1"} && j.clock == 0
    ensures var create := CreateStep("b", "cb", 0, 0, tries, "2", true);
            var j1 := Next(sha, j, create);
            && Enabled(sha, j, create) && CreateOutcome(sha, j, create).Created?
               && CreateOutcome(sha, j, create).clear == "1234"
            && CanPick(sha, j1.k.mem, "1234", "1")
            && Claim(sha, true, j1.k, "1234", "1", 0, true).1 == AlreadyClaimed
  {
    PlainCode(sha);
    hide Normalize, HashCode;
    assert Text.Trim("b") == "b" && Text.Trim("cb") == "cb";
    assert DropUnclaimed(Prune(j.k.mem, 0), "b") == j.k.mem;
    assert FirstFree(sha, j.k.mem, tries, 0) == Some("1234");
    hide DropUnclaimed, Prune, FirstFree, Text.Trim;
    var code := NewCode(sha, "2", "b", "cb", "1234", 0, 0);
    var j1 := Next(sha, j, CreateStep("b", "cb", 0, 0, tries, "2", true));
    assert j1.k.mem == j.k.mem["2" := code];
    assert j1.k.mem["1"].hash == sha("1234");
  }

  /** Installation "a" has drawn and claimed the code. */
  lemma FirstTaken(sha: string -> string, tries: seq<string>)
    requires |tries| == TRIES && tries[0] == "1234" && sha("1234") != ""
    ensures var a, claim := CreateStep("a", "ca", 0, 0, tries, "1", true), ClaimStep("1234", "1", 0, true);
            var j := Next(sha, Next(sha, Start(0), a), claim);
            && j.k.mem == map["1" := Code("1", "a", "ca", sha("1234"), 0, DEFAULT_TTL, Some(0), 1)]
            && j.used == {"1"} && j.clock == 0
  {
    PlainCode(sha);
    hide Normalize, HashCode;
    var a, claim := CreateStep("a", "ca", 0, 0, tries, "1", true), ClaimStep("1234", "1", 0, true);
    var first := Code("1", "a", "ca", sha("1234"), 0, DEFAULT_TTL, None, 0);
    assert Text.Trim("a") == "a" && Text.Trim("ca") == "ca";
    assert DropUnclaimed(Prune(map[], 0), "a") == map[];
    assert FirstFree(sha, map[], tries, 0) == Some("1234");
    assert NewCode(sha, "1", "a", "ca", "1234", 0, 0) == first;
    var j0 := Next(sha, Start(0), a);
    assert j0.k.mem == map["1" := first];
    assert j0.k.mem["1"].hash == sha("1234");
    assert Enabled(sha, j0, claim);
  }

  lemma PlainCode(sha: string -> string)
    ensures Normalize("1234") == Some("1234") && HashCode(sha, "1234") == sha("1234")
  {
    Text.TrimFixpoint("1234");
    DigitsMeaning("1234");
  }
}
