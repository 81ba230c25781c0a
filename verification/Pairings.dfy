/**
  Pairing codes (internal/watchpairings/store.go): creation with pruning and collision checks,
  claiming, expiry and attempts. `sha` stands for the hash of a normalised code.
 */
module Pairings {
  import opened Wrappers
  import opened Text
  import opened Snapshots

  const DEFAULT_TTL: Time := 600 * SECOND
  const MAX_ATTEMPTS: nat := 6
  const CODE_LENGTH: nat := 4
  const TRIES: nat := 10

  datatype Code = Code(id: string, installation: string, channel: string, hash: string,
                       createdAt: Time, expiresAt: Time, claimedAt: Option<Time>, attempts: nat)

  type Codes = map<string, Code>

  datatype CreateResult = Created(code: Code, clear: string) | MissingID | NoFreeCode | CreateNotSaved

  datatype ClaimResult =
    | Claimed(code: Code) | InvalidCode | NotFound | TooManyAttempts | AlreadyClaimed | Expired | ClaimNotSaved

  // ---------------------------------------------------------------- codes as text

  predicate IsDigit(c: char) { '0' <= c <= '9' }

  function Digits(s: string): string {
    if s == "" then "" else Digits(s[..|s| - 1]) + if IsDigit(s[|s| - 1]) then [s[|s| - 1]] else ""
  }

  predicate CodeText(s: string) {
    forall c <- s :: IsDigit(c) || c == ' ' || c == '-'
  }

  function Normalize(raw: string): Option<string> {
    var s := Trim(raw);
    if s != "" && CodeText(s) && |Digits(s)| == CODE_LENGTH then Some(Digits(s)) else None
  }

  method NormalizeCode(raw: string) returns (value: Option<string>)
    ensures value == Normalize(raw)
  {
    var s := Trim(raw);
    if s == "" { return None; }
    var digits := "";
    for i := 0 to |s|
      invariant digits == Digits(s[..i]) && CodeText(s[..i])
    {
      assert s[..i + 1][..i] == s[..i];
      if IsDigit(s[i]) {
        digits := digits + [s[i]];
      } else if s[i] == ' ' || s[i] == '-' {
        continue;
      } else {
        assert s[i] in s;
        return None;
      }
    }
    assert s[..|s|] == s;
    return if |digits| == CODE_LENGTH then Some(digits) else None;
  }

  lemma {:induction false} DigitsMeaning(s: string)
    ensures forall c <- Digits(s) :: IsDigit(c)
    ensures (forall c <- s :: IsDigit(c)) ==> Digits(s) == s
  {
    if s != "" {
      DigitsMeaning(s[..|s| - 1]);
      assert s == s[..|s| - 1] + [s[|s| - 1]];
    }
  }

  lemma {:induction false} DigitsConcat(s: string, t: string)
    ensures Digits(s + t) == Digits(s) + Digits(t)
  {
    if t == "" {
      assert s + t == s;
    } else {
      assert (s + t)[..|s + t| - 1] == s + t[..|t| - 1];
      DigitsConcat(s, t[..|t| - 1]);
    }
  }

  /** A text is a code when it holds four digits and beside them only spaces and dashes; the digits are its value. */
  lemma NormalizeMeaning(raw: string)
    ensures var s := Trim(raw);
            && (Normalize(raw).Some? <==> CodeText(s) && |Digits(s)| == 4)
            && (Normalize(raw).Some? ==> Normalize(raw).value == Digits(s) && |Normalize(raw).value| == 4)
    ensures forall c :: Digits([c]) == if '0' <= c <= '9' then [c] else ""
  {
    hide Trim;
    forall c ensures Digits([c]) == if '0' <= c <= '9' then [c] else "" { assert [c][..0] == ""; }
  }

  /** Normalising is stable, so a clear code and whatever the user types for it hash alike. */
  lemma NormalizeStable(raw: string)
    requires Normalize(raw).Some?
    ensures Normalize(Normalize(raw).value) == Normalize(raw)
  {
    hide Trim, Digits;
    var n := Normalize(raw).value;
    DigitsMeaning(Trim(raw));
    DigitsMeaning(n);
    assert n[0] in n && n[|n| - 1] in n;
    TrimFixpoint(n);
  }

  function HashCode(sha: string -> string, code: string): string {
    var n := Normalize(code);
    if n.None? then "" else sha(n.value)
  }

  // ---------------------------------------------------------------- the calls

  function Prune(codes: Codes, now: Time): Codes {
    Select(codes, (c: Code) => c.expiresAt <= now)
  }

  /** At most one unclaimed code per installation: the old one goes. */
  function DropUnclaimed(codes: Codes, installation: string): Codes {
    Select(codes, (c: Code) => c.installation == installation && c.claimedAt.None?)
  }

  predicate HasActiveHash(codes: Codes, hash: string, now: Time) {
    exists id | id in codes :: codes[id].hash == hash && codes[id].claimedAt.None? && codes[id].expiresAt > now
  }

  /** The first of the random codes that hashes to something no active code uses. */
  function FirstFree(sha: string -> string, codes: Codes, tries: seq<string>, now: Time): Option<string> {
    if tries == [] then None
    else
      var hash := HashCode(sha, tries[0]);
      if tries[0] != "" && hash != "" && !HasActiveHash(codes, hash, now) then Some(tries[0])
      else FirstFree(sha, codes, tries[1..], now)
  }

  function NewCode(sha: string -> string, id: string, installation: string, channel: string,
                   clear: string, now: Time, ttl: Time): Code {
    Code(id, Trim(installation), Trim(channel), HashCode(sha, clear), now,
         now + (if ttl <= 0 then DEFAULT_TTL else ttl), None, 0)
  }

  function Create(sha: string -> string, persisted: bool, k: Kept<Codes>, installation: string, channel: string,
                  ttl: Time, now: Time, tries: seq<string>, id: string, saveOk: bool): (Kept<Codes>, CreateResult)
    requires |tries| == TRIES
  {
    if Trim(installation) == "" || Trim(channel) == "" then (k, MissingID)
    else
      var codes := DropUnclaimed(Prune(k.mem, now), Trim(installation));
      var clear := FirstFree(sha, codes, tries, now);
      if clear.None? then (k, NoFreeCode)
      else
        var code := NewCode(sha, id, installation, channel, clear.value, now, ttl);
        var (k', ok) := Commit(persisted, k, codes[id := code], saveOk);
        (k', if ok then Created(code, clear.value) else CreateNotSaved)
  }

  predicate IsNewest(codes: Codes, hash: string, id: string) {
    && id in codes && codes[id].hash == hash
    && forall other | other in codes && codes[other].hash == hash :: codes[other].createdAt <= codes[id].createdAt
  }

  predicate HasHash(codes: Codes, hash: string) {
    exists id | id in codes :: codes[id].hash == hash
  }

  /** The candidates a map order can lead Claim to: the newest codes of the hash, or none. */
  predicate CanPick(sha: string -> string, codes: Codes, raw: string, pick: string) {
    var hash := if Normalize(raw).None? then "" else HashCode(sha, Normalize(raw).value);
    if Normalize(raw).Some? && HasHash(codes, hash) then IsNewest(codes, hash, pick) else pick == ""
  }

  /** `pick` is the candidate the map order led to. */
  function Claim(sha: string -> string, persisted: bool, k: Kept<Codes>, raw: string, pick: string,
                 now: Time, saveOk: bool): (Kept<Codes>, ClaimResult)
  {
    var n := Normalize(raw);
    if n.None? || HashCode(sha, n.value) == "" then (k, InvalidCode)
    else if !HasHash(k.mem, HashCode(sha, n.value)) || pick !in k.mem then (k, NotFound)
    else
      var code := k.mem[pick];
      if code.attempts >= MAX_ATTEMPTS then (k, TooManyAttempts)
      else
        var tried := code.(attempts := code.attempts + 1);
        var (codes, result) :=
          if code.claimedAt.Some? then (k.mem[pick := tried], AlreadyClaimed)
          else if code.expiresAt <= now then (k.mem - {pick}, Expired)
          else (k.mem[pick := tried.(claimedAt := Some(now))], Claimed(tried.(claimedAt := Some(now))));
        var (k', ok) := Commit(persisted, k, codes, saveOk);
        (k', if ok then result else ClaimNotSaved)
  }

  function WithoutInstallation(codes: Codes, installation: string): Codes {
    Select(codes, (c: Code) => c.installation == installation)
  }

  function Remove(persisted: bool, k: Kept<Codes>, installation: string, saveOk: bool): (Kept<Codes>, bool) {
    var codes := WithoutInstallation(k.mem, Trim(installation));
    if Trim(installation) == "" || codes == k.mem then (k, true) else Commit(persisted, k, codes, saveOk)
  }

  /** OpenStore's treatment of one record. Creation and expiry times are always written. */
  function Load(code: Code): Option<Code> {
    var c := code.(id := Trim(code.id), installation := Trim(code.installation),
                   channel := Trim(code.channel), hash := Trim(code.hash));
    if c.id == "" || c.installation == "" || c.channel == "" || c.hash == "" then None else Some(c)
  }

  function IdOf(code: Code): string {
    code.id
  }

  lemma LoadMeaning(record: Code)
    ensures Load(record) ==
              if Trim(record.id) == "" || Trim(record.installation) == "" || Trim(record.channel) == ""
                 || Trim(record.hash) == "" then None
              else Some(Code(Trim(record.id), Trim(record.installation), Trim(record.channel), Trim(record.hash),
                             record.createdAt, record.expiresAt, record.claimedAt, record.attempts))
  {
    hide Trim;
  }

  /** The records OpenStore keeps unchanged. */
  predicate WellFormed(code: Code) {
    && code.id != "" && code.installation != "" && code.channel != "" && code.hash != ""
    && Trimmed(code.id) && Trimmed(code.installation) && Trimmed(code.channel) && Trimmed(code.hash)
  }

  lemma LoadedWellFormed(code: Code)
    requires Load(code).Some?
    ensures WellFormed(Load(code).value)
  {
    TrimFixpoint(code.id);
    TrimFixpoint(code.installation);
    TrimFixpoint(code.channel);
    TrimFixpoint(code.hash);
    hide Trim;
  }

  lemma LoadKeepsWellFormed(code: Code)
    ensures Load(code) == Some(code) <==> WellFormed(code)
  {
    TrimFixpoint(code.id);
    TrimFixpoint(code.installation);
    TrimFixpoint(code.channel);
    TrimFixpoint(code.hash);
  }

  lemma NewCodeWellFormed(sha: string -> string, id: string, installation: string, channel: string,
                          clear: string, now: Time, ttl: Time)
    requires id != "" && Trimmed(id) && Trim(installation) != "" && Trim(channel) != "" && HashCode(sha, clear) != ""
    requires forall s :: Trimmed(sha(s))
    ensures WellFormed(NewCode(sha, id, installation, channel, clear, now, ttl))
  {
    TrimFixpoint(installation);
    TrimFixpoint(channel);
  }

  // ---------------------------------------------------------------- what the callers may rely on

  predicate Usable(sha: string -> string, codes: Codes, clear: string, now: Time) {
    clear != "" && HashCode(sha, clear) != "" && !HasActiveHash(codes, HashCode(sha, clear), now)
  }

  lemma {:induction false} FirstFreeMeaning(sha: string -> string, codes: Codes, tries: seq<string>, now: Time)
    ensures var clear := FirstFree(sha, codes, tries, now);
            match clear
            case Some(c) => exists i | 0 <= i < |tries| ::
              tries[i] == c && Usable(sha, codes, c, now) && forall j | 0 <= j < i :: !Usable(sha, codes, tries[j], now)
            case None => forall c <- tries :: !Usable(sha, codes, c, now)
  {
    hide HasActiveHash, HashCode;
    if tries != [] && !Usable(sha, codes, tries[0], now) {
      FirstFreeMeaning(sha, codes, tries[1..], now);
      var rest := FirstFree(sha, codes, tries[1..], now);
      if rest.Some? {
        var i :| 0 <= i < |tries| - 1 && tries[1..][i] == rest.value && Usable(sha, codes, rest.value, now)
                 && forall j | 0 <= j < i :: !Usable(sha, codes, tries[1..][j], now);
        assert tries[i + 1] == rest.value;
        forall j | 0 <= j < i + 1 ensures !Usable(sha, codes, tries[j], now) {
          assert j > 0 ==> tries[1..][j - 1] == tries[j];
        }
      }
    }
  }

  /** What is left of the old codes: the unexpired ones, but for the installation's own unclaimed one. */
  predicate Survives(c: Code, installation: string, now: Time) {
    now < c.expiresAt && !(c.installation == installation && c.claimedAt.None?)
  }

  /** No surviving code that could still be claimed has the hash of this draw. */
  predicate Free(sha: string -> string, codes: Codes, installation: string, now: Time, draw: string) {
    && draw != "" && HashCode(sha, draw) != ""
    && forall id <- codes | Survives(codes[id], installation, now) && codes[id].claimedAt.None? ::
         codes[id].hash != HashCode(sha, draw)
  }

  /** The fields of a fresh code. */
  predicate FreshCode(c: Code, id: string, installation: string, channel: string, hash: string, ttl: Time, now: Time) {
    && c.id == id && c.installation == installation && c.channel == channel && c.hash == hash
    && c.createdAt == now && c.expiresAt == now + (if ttl > 0 then ttl else 600_000_000_000)
    && c.claimedAt.None? && c.attempts == 0
  }

  /** Which answer a creation gets, what it says, and what is stored afterwards. */
  ghost predicate CreatePromise(sha: string -> string, persisted: bool, k: Kept<Codes>, installation: string,
                                channel: string, ttl: Time, now: Time, tries: seq<string>, id: string, saveOk: bool,
                                k': Kept<Codes>, result: CreateResult)
  {
    var owner, target := Trim(installation), Trim(channel);
    match result
    case MissingID => (owner == "" || target == "") && k' == k
    case NoFreeCode => owner != "" && target != "" && (forall d <- tries :: !Free(sha, k.mem, owner, now, d)) && k' == k
    case CreateNotSaved => persisted && !saveOk && k' == k
    case Created(code, clear) =>
      && owner != "" && target != "" && (persisted ==> saveOk)
      && (exists i | 0 <= i < |tries| :: tries[i] == clear && Free(sha, k.mem, owner, now, clear)
            && forall j | 0 <= j < i :: !Free(sha, k.mem, owner, now, tries[j]))
      && FreshCode(code, id, owner, target, HashCode(sha, clear), ttl, now)
      && (forall p :: p in k'.mem <==> p == id || (p in k.mem && Survives(k.mem[p], owner, now)))
      && k'.mem[id] == code && (forall p <- k'.mem | p != id :: k'.mem[p] == k.mem[p])
      && k'.saved == if persisted then Some(k'.mem) else k.saved
  }

  lemma FreeIsUsable(sha: string -> string, codes: Codes, installation: string, now: Time, draw: string)
    ensures Free(sha, codes, installation, now, draw)
            <==> Usable(sha, DropUnclaimed(Prune(codes, now), installation), draw, now)
  {
    hide HashCode;
    var room := DropUnclaimed(Prune(codes, now), installation);
    forall id <- codes ensures id in room <==> Survives(codes[id], installation, now) { }
  }

  lemma CreateKeepsPromise(sha: string -> string, persisted: bool, k: Kept<Codes>, installation: string,
                           channel: string, ttl: Time, now: Time, tries: seq<string>, id: string, saveOk: bool)
    requires |tries| == TRIES
    ensures var (k', result) := Create(sha, persisted, k, installation, channel, ttl, now, tries, id, saveOk);
            CreatePromise(sha, persisted, k, installation, channel, ttl, now, tries, id, saveOk, k', result)
  {
    hide HashCode, Trim, FirstFree, Usable, Free;
    var room := DropUnclaimed(Prune(k.mem, now), Trim(installation));
    FirstFreeMeaning(sha, room, tries, now);
    forall d ensures Free(sha, k.mem, Trim(installation), now, d) <==> Usable(sha, room, d, now) {
      FreeIsUsable(sha, k.mem, Trim(installation), now, d);
    }
  }

  /** Which answer a claim gets and what becomes of the picked code; every other code stays as it is. */
  predicate ClaimPromise(sha: string -> string, persisted: bool, k: Kept<Codes>, raw: string, pick: string, now: Time,
                         saveOk: bool, k': Kept<Codes>, result: ClaimResult)
  {
    match result
    case InvalidCode => (Normalize(raw).None? || HashCode(sha, raw) == "") && k' == k
    case NotFound => Normalize(raw).Some? && !HasHash(k.mem, HashCode(sha, raw)) && k' == k
    case TooManyAttempts => pick in k.mem && k.mem[pick].attempts >= 6 && k' == k
    case ClaimNotSaved => pick in k.mem && k.mem[pick].attempts < 6 && persisted && !saveOk && k' == k
    case AlreadyClaimed =>
      && pick in k.mem && k.mem[pick].attempts < 6 && k.mem[pick].claimedAt.Some?
      && Left(persisted, saveOk, k, k', k.mem[pick := k.mem[pick].(attempts := k.mem[pick].attempts + 1)])
    case Expired =>
      && pick in k.mem && k.mem[pick].attempts < 6 && k.mem[pick].claimedAt.None? && k.mem[pick].expiresAt <= now
      && Left(persisted, saveOk, k, k', k.mem - {pick})
    case Claimed(c) =>
      && pick in k.mem && k.mem[pick].attempts < 6 && k.mem[pick].claimedAt.None? && now < k.mem[pick].expiresAt
      && k.mem[pick].hash == HashCode(sha, raw)
      && c == k.mem[pick].(attempts := k.mem[pick].attempts + 1, claimedAt := Some(now))
      && Left(persisted, saveOk, k, k', k.mem[pick := c])
  }

  /** The call was saved, and these are the codes now. */
  predicate Left(persisted: bool, saveOk: bool, k: Kept<Codes>, k': Kept<Codes>, codes: Codes) {
    (persisted ==> saveOk) && k' == Kept(codes, if persisted then Some(codes) else k.saved)
  }

  lemma HashOfNormal(sha: string -> string, raw: string)
    requires Normalize(raw).Some?
    ensures HashCode(sha, Normalize(raw).value) == HashCode(sha, raw)
  {
    NormalizeStable(raw);
    hide Normalize;
  }

  lemma ClaimKeepsPromise(sha: string -> string, persisted: bool, k: Kept<Codes>, raw: string, pick: string, now: Time,
                          saveOk: bool)
    requires CanPick(sha, k.mem, raw, pick)
    ensures var (k', result) := Claim(sha, persisted, k, raw, pick, now, saveOk);
            ClaimPromise(sha, persisted, k, raw, pick, now, saveOk, k', result)
  {
    hide Normalize, HashCode, HasHash;
    if Normalize(raw).Some? { HashOfNormal(sha, raw); }
  }

  // ---------------------------------------------------------------- the store

  class Store {
    const sha: string -> string
    const persisted: bool
    var byID: Codes
    var file: Option<seq<Code>>

    function State(): Kept<Codes>
      reads this
    {
      Kept(byID, if file.None? then None else Some(Rebuild(file.value, Load, IdOf)))
    }

    predicate Valid()
      reads this
    {
      forall id <- byID :: WellFormed(byID[id]) && byID[id].id == id
    }

    constructor (sha: string -> string, persisted: bool)
      ensures this.sha == sha && this.persisted == persisted
      ensures State() == Kept(map[], None) && Valid()
    {
      this.sha, this.persisted := sha, persisted;
      byID, file := map[], None;
    }

    method Persist(saveOk: bool) returns (ok: bool)
      requires Valid()
      modifies this`file
      ensures ok == (!persisted || saveOk)
      ensures State() == Kept(byID, if persisted && saveOk then Some(byID) else old(State()).saved)
    {
      if !persisted { return true; }
      if saveOk {
        forall id <- byID ensures Load(byID[id]) == Some(byID[id]) { LoadKeepsWellFormed(byID[id]); }
        var items := Snapshot(byID, Load, IdOf);
        file := Some(items);
      }
      return saveOk;
    }

    method HasActive(hash: string, now: Time) returns (found: bool)
      ensures found == HasActiveHash(byID, hash, now)
    {
      var rest := byID.Keys;
      while rest != {}
        invariant rest <= byID.Keys
        invariant forall id | id in byID.Keys - rest ::
          !(byID[id].hash == hash && byID[id].claimedAt.None? && byID[id].expiresAt > now)
      {
        var id :| id in rest;
        rest := rest - {id};
        if byID[id].hash != hash { continue; }
        if byID[id].claimedAt.Some? { continue; }
        if byID[id].expiresAt <= now { continue; }
        return true;
      }
      return false;
    }

    /** The retry loop of Create. */
    method FindFree(tries: seq<string>, now: Time) returns (clear: Option<string>)
      requires |tries| == TRIES
      ensures clear == FirstFree(sha, byID, tries, now)
    {
      for i := 0 to TRIES
        invariant FirstFree(sha, byID, tries, now) == FirstFree(sha, byID, tries[i..], now)
      {
        if tries[i] == "" { continue; }
        var hash := HashCode(sha, tries[i]);
        if hash == "" { continue; }
        var taken := HasActive(hash, now);
        if taken { continue; }
        return Some(tries[i]);
      }
      return None;
    }

    /** Deletes expired codes and the installation's unclaimed ones. */
    method MakeRoom(installation: string, now: Time)
      requires Valid()
      modifies this`byID
      ensures Valid() && byID == DropUnclaimed(Prune(old(byID), now), installation)
    {
      var pruned, _ := DeleteWhere(byID, (c: Code) => c.expiresAt <= now);
      byID := pruned;
      var single, _ := DeleteWhere(byID, (c: Code) => c.installation == installation && c.claimedAt.None?);
      byID := single;
    }

    method CreateCode(installationID: string, channelID: string, ttl: Time, now: Time, tries: seq<string>,
                      id: string, saveOk: bool) returns (result: CreateResult)
      requires Valid() && |tries| == TRIES && id != "" && Trimmed(id)
      requires forall s :: Trimmed(sha(s))
      modifies this
      ensures Valid()
      ensures (State(), result) == Create(sha, persisted, old(State()), installationID, channelID, ttl, now, tries, id,
                                          saveOk)
      ensures CreatePromise(sha, persisted, old(State()), installationID, channelID, ttl, now, tries, id, saveOk,
                            State(), result)
    {
      hide CreatePromise;
      CreateKeepsPromise(sha, persisted, State(), installationID, channelID, ttl, now, tries, id, saveOk);
      var installation, channel := Trim(installationID), Trim(channelID);
      if installation == "" { return MissingID; }
      if channel == "" { return MissingID; }
      var previous := byID;
      MakeRoom(installation, now);
      var clear := FindFree(tries, now);
      if clear.None? {
        byID := previous;
        return NoFreeCode;
      }
      FirstFreeMeaning(sha, byID, tries, now);
      NewCodeWellFormed(sha, id, installationID, channelID, clear.value, now, ttl);
      var code := NewCode(sha, id, installationID, channelID, clear.value, now, ttl);
      byID := byID[id := code];
      var ok := Persist(saveOk);
      if !ok {
        byID := previous;
        return CreateNotSaved;
      }
      return Created(code, clear.value);
    }

    /** The candidate loop of Claim, in map order. */
    method Newest(hash: string) returns (pick: Option<string>)
      ensures pick.Some? <==> HasHash(byID, hash)
      ensures pick.Some? ==> IsNewest(byID, hash, pick.value)
    {
      pick := None;
      var rest := byID.Keys;
      while rest != {}
        invariant rest <= byID.Keys
        invariant pick.Some? ==> pick.value in byID && byID[pick.value].hash == hash
        invariant forall id | id in byID.Keys - rest && byID[id].hash == hash ::
          pick.Some? && byID[id].createdAt <= byID[pick.value].createdAt
      {
        var id :| id in rest;
        rest := rest - {id};
        if byID[id].hash != hash { continue; }
        if pick.None? || byID[id].createdAt > byID[pick.value].createdAt { pick := Some(id); }
      }
    }

    method ClaimCode(raw: string, now: Time, saveOk: bool) returns (result: ClaimResult, pick: string)
      requires Valid()
      modifies this
      ensures Valid()
      ensures (State(), result) == Claim(sha, persisted, old(State()), raw, pick, now, saveOk)
      ensures CanPick(sha, old(State()).mem, raw, pick)
      ensures ClaimPromise(sha, persisted, old(State()), raw, pick, now, saveOk, State(), result)
    {
      hide Normalize, HashCode, HasHash, Rebuild, Trim, ClaimPromise;
      pick := "";
      var normalized := NormalizeCode(raw);
      if normalized.None? {
        ClaimKeepsPromise(sha, persisted, State(), raw, pick, now, saveOk);
        return InvalidCode, pick;
      }
      var hash := HashCode(sha, normalized.value);
      var newest := Newest(hash);
      if newest.Some? { pick := newest.value; }
      ClaimKeepsPromise(sha, persisted, State(), raw, pick, now, saveOk);
      if hash == "" { return InvalidCode, pick; }
      if newest.None? { return NotFound, pick; }
      var candidate := byID[pick];
      if candidate.attempts >= MAX_ATTEMPTS { return TooManyAttempts, pick; }
      var snapshot := byID;
      candidate := candidate.(attempts := candidate.attempts + 1);
      if candidate.claimedAt.Some? {
        byID := byID[pick := candidate];
        result := AlreadyClaimed;
      } else if candidate.expiresAt <= now {
        byID := byID - {pick};
        result := Expired;
      } else {
        candidate := candidate.(claimedAt := Some(now));
        byID := byID[pick := candidate];
        result := Claimed(candidate);
      }
      var ok := Persist(saveOk);
      if !ok {
        byID := snapshot;
        result := ClaimNotSaved;
      }
    }

    method RemoveForInstallation(installationID: string, saveOk: bool) returns (ok: bool)
      requires Valid()
      modifies this
      ensures Valid()
      ensures (State(), ok) == Remove(persisted, old(State()), installationID, saveOk)
    {
      var installation := Trim(installationID);
      if installation == "" { return true; }
      var previous := byID;
      var left, removed := DeleteWhere(byID, (c: Code) => c.installation == installation);
      assert left == WithoutInstallation(previous, installation);
      if !removed { return true; }
      byID := left;
      ok := Persist(saveOk);
      if !ok { byID := previous; }
    }

    /** A process restart: memory is rebuilt from the file alone. */
    method OpenStore()
      modifies this`byID
      ensures Valid() && State() == Restart(persisted, old(State()))
    {
      byID := map[];
      if !persisted || file.None? { return; }
      for i := 0 to |file.value|
        invariant byID == Rebuild(file.value[..i], Load, IdOf)
        invariant file == old(file) && Valid()
      {
        assert file.value[..i + 1][..i] == file.value[..i];
        var code := Load(file.value[i]);
        if code.None? { continue; }
        LoadedWellFormed(file.value[i]);
        byID := byID[code.value.id := code.value];
      }
      assert file.value[..|file.value|] == file.value;
    }
  }
}
