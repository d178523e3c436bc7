/** Refresh-token rotation under any interleaving of requests (src/modules/auth/auth.service.ts).
    A token's id is its position in the table; hashes stand for the tokens themselves. */
module TokenRotation {
  import opened Options

  datatype Token = Token(staff: string, hash: string, expiresAt: int, revokedAt: Option<int>, replacedBy: Option<nat>)

  /** `admitted` lists the refresh requests that passed their read and have not committed or have
      committed: each is the token it read. Its check and its transaction are separate steps. */
  datatype State = State(tokens: seq<Token>, admitted: seq<nat>, now: int)

  datatype Step =
    | Login(staff: string, hash: string, lifetime: nat)
    | RefreshRead(hash: string, staffIsActive: bool)
    | RefreshCommit(request: nat, hash: string, lifetime: nat)
    | Logout(hash: string)
    | Wait(time: nat)

  const INITIAL := State([], [], 0)

  /** The unique row with this hash, or the size of the table. */
  function FindHash(tokens: seq<Token>, hash: string): (i: nat)
    ensures i <= |tokens|
    ensures i < |tokens| ==> tokens[i].hash == hash
    ensures forall j :: 0 <= j < i ==> tokens[j].hash != hash
  {
    if tokens == [] || tokens[0].hash == hash then 0 else 1 + FindHash(tokens[1..], hash)
  }

  predicate Live(t: Token) { t.revokedAt.None? }

  function Revoke(tokens: seq<Token>, i: nat, now: int): seq<Token>
    requires i < |tokens|
  {
    tokens[i := tokens[i].(revokedAt := Some(now))]
  }

  /** One committed step. A step that throws changes nothing; the hash column is unique. */
  function Next(s: State, step: Step): State {
    match step
    case Login(staff, hash, lifetime) =>
      if FindHash(s.tokens, hash) < |s.tokens| then s
      else s.(tokens := s.tokens + [Token(staff, hash, s.now + lifetime, None, None)])
    case RefreshRead(hash, staffIsActive) =>
      var i := FindHash(s.tokens, hash);
      if i == |s.tokens| || !Live(s.tokens[i]) || s.tokens[i].expiresAt < s.now || !staffIsActive then s
      else s.(admitted := s.admitted + [i])
    case RefreshCommit(request, hash, lifetime) =>
      if request >= |s.admitted| || s.admitted[request] >= |s.tokens| then s
      else Rotated(s, s.admitted[request], hash, lifetime)
    case Logout(hash) =>
      var i := FindHash(s.tokens, hash);
      if i < |s.tokens| && Live(s.tokens[i]) then s.(tokens := Revoke(s.tokens, i, s.now)) else s
    case Wait(time) => s.(now := s.now + time)
  }

  /** The refresh transaction: claim the token if it is still live, mint its successor, link the two. */
  function Rotated(s: State, i: nat, hash: string, lifetime: nat): State
    requires i < |s.tokens|
  {
    if !Live(s.tokens[i]) || FindHash(s.tokens, hash) < |s.tokens| then s
    else
      var claimed := Revoke(s.tokens, i, s.now);
      var issued := claimed + [Token(s.tokens[i].staff, hash, s.now + lifetime, None, None)];
      s.(tokens := issued[i := issued[i].(replacedBy := Some(|s.tokens|))])
  }

  function Run(s: State, steps: seq<Step>): State
    decreases |steps|
  {
    if steps == [] then s else Run(Next(s, steps[0]), steps[1..])
  }

  // ------------------------------------------------------------ the table as a database object

  class TokenTable {
    var tokens: seq<Token>

    constructor ()
      ensures tokens == []
    {
      tokens := [];
    }

    /** UPDATE ... SET revokedAt WHERE id AND revokedAt IS NULL: the number of rows it changed. */
    method RevokeIfLive(i: nat, now: int) returns (count: nat)
      requires i < |tokens|
      modifies this
      ensures count == if Live(old(tokens)[i]) then 1 else 0
      ensures tokens == if count == 1 then Revoke(old(tokens), i, now) else old(tokens)
    {
      count := 0;
      if Live(tokens[i]) {
        tokens := tokens[i := tokens[i].(revokedAt := Some(now))];
        count := 1;
      }
    }

    method Create(staff: string, hash: string, expiresAt: int) returns (id: nat)
      requires FindHash(tokens, hash) == |tokens|
      modifies this
      ensures id == |old(tokens)|
      ensures tokens == old(tokens) + [Token(staff, hash, expiresAt, None, None)]
    {
      id := |tokens|;
      tokens := tokens + [Token(staff, hash, expiresAt, None, None)];
    }

    /** The refresh transaction after its read admitted token `i`; a random successor has a new hash. */
    method Refresh(i: nat, now: int, hash: string, lifetime: nat) returns (issued: Option<nat>)
      requires i < |tokens| && FindHash(tokens, hash) == |tokens|
      modifies this
      ensures tokens == Rotated(State(old(tokens), [], now), i, hash, lifetime).tokens
      ensures issued == if Live(old(tokens)[i]) then Some(|old(tokens)|) else None
    {
      RevokingKeepsHashes(tokens, i, now, hash);
      var claimed := RevokeIfLive(i, now);
      if claimed == 0 {
        return None;
      }
      var id := Create(tokens[i].staff, hash, now + lifetime);
      tokens := tokens[i := tokens[i].(replacedBy := Some(id))];
      issued := Some(id);
    }

    method LogOut(hash: string, now: int)
      modifies this
      ensures tokens == Next(State(old(tokens), [], now), Logout(hash)).tokens
    {
      var i := FindHash(tokens, hash);
      if i < |tokens| {
        var _ := RevokeIfLive(i, now);
      }
    }
  }

  lemma {:induction false} RevokingKeepsHashes(tokens: seq<Token>, i: nat, now: int, hash: string)
    requires i < |tokens|
    ensures FindHash(Revoke(tokens, i, now), hash) == FindHash(tokens, hash)
  {
    var a, b := FindHash(Revoke(tokens, i, now), hash), FindHash(tokens, hash);
    assert a < |tokens| ==> tokens[a].hash == hash;
    assert b < |tokens| ==> Revoke(tokens, i, now)[b].hash == hash;
  }

  // ------------------------------------------------------------ the invariant

  /** A replaced token is revoked and points forward to a token of the same account; no two tokens
      have the same successor; hashes are unique. */
  ghost predicate Inv(s: State) {
    && (forall i :: 0 <= i < |s.tokens| ==> WellLinked(s.tokens, i))
    && (forall i, j :: 0 <= i < j < |s.tokens| && s.tokens[i].replacedBy.Some? ==> s.tokens[i].replacedBy != s.tokens[j].replacedBy)
    && (forall i, j :: 0 <= i < j < |s.tokens| ==> s.tokens[i].hash != s.tokens[j].hash)
    && (forall r :: 0 <= r < |s.admitted| ==> s.admitted[r] < |s.tokens|)
  }

  ghost predicate WellLinked(tokens: seq<Token>, i: nat)
    requires i < |tokens|
  {
    tokens[i].replacedBy.Some? ==>
      && !Live(tokens[i])
      && i < tokens[i].replacedBy.value < |tokens|
      && tokens[tokens[i].replacedBy.value].staff == tokens[i].staff
  }

  lemma {:induction false} RevokingKeepsInv(s: State, i: nat)
    requires Inv(s) && i < |s.tokens|
    ensures Inv(s.(tokens := Revoke(s.tokens, i, s.now)))
  {
    var t := Revoke(s.tokens, i, s.now);
    forall j | 0 <= j < |t| ensures WellLinked(t, j) {
      assert WellLinked(s.tokens, j);
    }
  }

  lemma {:induction false} IssuingKeepsInv(s: State, token: Token)
    requires Inv(s) && token.replacedBy.None? && FindHash(s.tokens, token.hash) == |s.tokens|
    ensures Inv(s.(tokens := s.tokens + [token]))
  {
    var t := s.tokens + [token];
    forall j | 0 <= j < |t| ensures WellLinked(t, j) {
      if j < |s.tokens| {
        assert WellLinked(s.tokens, j);
      }
    }
  }

  /** Linking a revoked token without successor to the newest token, which nothing points to yet. */
  lemma {:induction false} LinkingKeepsInv(s: State, i: nat)
    requires Inv(s) && i + 1 < |s.tokens| && !Live(s.tokens[i]) && s.tokens[|s.tokens| - 1].staff == s.tokens[i].staff
    requires forall j :: 0 <= j < |s.tokens| ==> s.tokens[j].replacedBy != Some(|s.tokens| - 1)
    ensures Inv(s.(tokens := s.tokens[i := s.tokens[i].(replacedBy := Some(|s.tokens| - 1))]))
  {
    var t := s.tokens[i := s.tokens[i].(replacedBy := Some(|s.tokens| - 1))];
    forall j | 0 <= j < |t| ensures WellLinked(t, j) {
      assert WellLinked(s.tokens, j);
    }
  }

  lemma {:induction false} RotatingKeepsInv(s: State, i: nat, hash: string, lifetime: nat)
    requires Inv(s) && i < |s.tokens|
    ensures Inv(Rotated(s, i, hash, lifetime))
  {
    if Live(s.tokens[i]) && FindHash(s.tokens, hash) == |s.tokens| {
      RevokingKeepsInv(s, i);
      var claimed := s.(tokens := Revoke(s.tokens, i, s.now));
      RevokingKeepsHashes(s.tokens, i, s.now, hash);
      var token := Token(s.tokens[i].staff, hash, s.now + lifetime, None, None);
      IssuingKeepsInv(claimed, token);
      var issued := claimed.(tokens := claimed.tokens + [token]);
      forall j | 0 <= j < |issued.tokens| ensures issued.tokens[j].replacedBy != Some(|s.tokens|) {
        if j < |s.tokens| {
          assert WellLinked(claimed.tokens, j);
        }
      }
      LinkingKeepsInv(issued, i);
    }
  }

  lemma {:induction false} StepKeepsInv(s: State, step: Step)
    requires Inv(s)
    ensures Inv(Next(s, step))
  {
    match step
    case Login(staff, hash, lifetime) =>
      if FindHash(s.tokens, hash) == |s.tokens| {
        IssuingKeepsInv(s, Token(staff, hash, s.now + lifetime, None, None));
      }
    case RefreshCommit(request, hash, lifetime) =>
      if request < |s.admitted| {
        RotatingKeepsInv(s, s.admitted[request], hash, lifetime);
      }
    case Logout(hash) =>
      if FindHash(s.tokens, hash) < |s.tokens| {
        RevokingKeepsInv(s, FindHash(s.tokens, hash));
      }
    case RefreshRead(_, _) =>
    case Wait(_) =>
  }

  lemma {:induction false} RunKeepsInv(s: State, steps: seq<Step>)
    requires Inv(s)
    ensures Inv(Run(s, steps))
    decreases |steps|
  {
    if steps != [] {
      StepKeepsInv(s, steps[0]);
      RunKeepsInv(Next(s, steps[0]), steps[1..]);
    }
  }

  // ------------------------------------------------------------ rotation chains

  /** Tokens of the table, each replaced by the next. */
  ghost predicate Chain(tokens: seq<Token>, path: seq<nat>) {
    && path != []
    && (forall x :: 0 <= x < |path| ==> path[x] < |tokens|)
    && (forall x :: 0 < x < |path| ==> tokens[path[x - 1]].replacedBy == Some(path[x]))
  }

  /** In every reachable state a rotation chain stays in one account, never comes back to a token it
      has left, and only its last token can be live. */
  lemma {:induction false} ChainsMoveOn(steps: seq<Step>, path: seq<nat>, x: nat, y: nat)
    requires Chain(Run(INITIAL, steps).tokens, path) && x < y < |path|
    ensures var tokens := Run(INITIAL, steps).tokens;
      path[x] < path[y] && !Live(tokens[path[x]]) && tokens[path[x]].staff == tokens[path[y]].staff
    decreases y
  {
    var tokens := Run(INITIAL, steps).tokens;
    RunKeepsInv(INITIAL, steps);
    var z: nat := y - 1;
    assert tokens[path[y - 1]].replacedBy == Some(path[y]);
    assert WellLinked(tokens, path[z]);
    if x < z {
      ChainsMoveOn(steps, path, x, z);
    }
  }

  /** Chains from one token run along each other: a token has one successor. */
  lemma {:induction false} ChainsDoNotFork(tokens: seq<Token>, p: seq<nat>, q: seq<nat>, x: nat)
    requires Chain(tokens, p) && Chain(tokens, q) && p[0] == q[0]
    requires x < |p| && x < |q|
    ensures p[x] == q[x]
  {
    if x > 0 {
      ChainsDoNotFork(tokens, p, q, x - 1);
      assert tokens[p[x - 1]].replacedBy == Some(p[x]) && tokens[q[x - 1]].replacedBy == Some(q[x]);
    }
  }

  /** Two chains that arrive at one token came the same way: no token has two predecessors, so
      different logins never share a session. */
  lemma {:induction false} ChainsDoNotMerge(steps: seq<Step>, p: seq<nat>, q: seq<nat>)
    requires var tokens := Run(INITIAL, steps).tokens; Chain(tokens, p) && Chain(tokens, q)
    requires |p| <= |q| && p[|p| - 1] == q[|q| - 1]
    ensures p == q[|q| - |p|..]
  {
    var tokens := Run(INITIAL, steps).tokens;
    RunKeepsInv(INITIAL, steps);
    if |p| > 1 {
      var m, n := |p| - 1, |q| - 1;
      assert tokens[p[m - 1]].replacedBy == Some(p[m]) && tokens[q[n - 1]].replacedBy == Some(q[n]);
      assert p[m - 1] == q[n - 1];
      ShorterChain(tokens, p);
      ShorterChain(tokens, q);
      ChainsDoNotMerge(steps, p[..m], q[..n]);
      assert p == p[..m] + [p[m]] && q == q[..n] + [q[n]];
    }
  }

  lemma {:induction false} ShorterChain(tokens: seq<Token>, p: seq<nat>)
    requires Chain(tokens, p) && |p| > 1
    ensures Chain(tokens, p[..|p| - 1])
  {
    var shorter := p[..|p| - 1];
    forall x | 0 < x < |shorter| ensures tokens[shorter[x - 1]].replacedBy == Some(shorter[x]) {
      assert tokens[p[x - 1]].replacedBy == Some(p[x]);
    }
  }

  /** The chain that one login started has at most one live token, under any interleaving. */
  lemma {:induction false} OneLiveTokenPerSession(steps: seq<Step>, p: seq<nat>, q: seq<nat>)
    requires var tokens := Run(INITIAL, steps).tokens; Chain(tokens, p) && Chain(tokens, q) && p[0] == q[0]
    requires var tokens := Run(INITIAL, steps).tokens; Live(tokens[p[|p| - 1]]) && Live(tokens[q[|q| - 1]])
    ensures p == q
  {
    var tokens := Run(INITIAL, steps).tokens;
    forall x | 0 <= x < |p| && x < |q| ensures p[x] == q[x] {
      ChainsDoNotFork(tokens, p, q, x);
    }
    if |p| < |q| {
      ChainsMoveOn(steps, q, |p| - 1, |q| - 1);
    } else if |q| < |p| {
      ChainsMoveOn(steps, p, |q| - 1, |p| - 1);
    }
  }

  // ------------------------------------------------------------ along a run

  /** Nothing about a spent token changes again: it stays revoked, and its successor stays the same. */
  ghost predicate Later(before: seq<Token>, after: seq<Token>) {
    && |before| <= |after|
    && forall i :: 0 <= i < |before| ==>
         && after[i].hash == before[i].hash && after[i].staff == before[i].staff
         && after[i].expiresAt == before[i].expiresAt
         && (!Live(before[i]) ==> after[i] == before[i])
  }

  /** A revoked token never becomes live again, and gets no further successor, whatever follows. */
  lemma {:induction false} RevokedForGood(s: State, steps: seq<Step>)
    requires Inv(s)
    ensures Later(s.tokens, Run(s, steps).tokens)
    decreases |steps|
  {
    if steps != [] {
      StepKeepsInv(s, steps[0]);
      RevokedForGood(Next(s, steps[0]), steps[1..]);
      assert Later(s.tokens, Next(s, steps[0]).tokens);
    }
  }

  function LiveCount(tokens: seq<Token>): nat {
    if tokens == [] then 0
    else LiveCount(tokens[..|tokens| - 1]) + if Live(tokens[|tokens| - 1]) then 1 else 0
  }

  lemma {:induction false} LiveCountUpdate(tokens: seq<Token>, i: nat, t: Token)
    requires i < |tokens|
    ensures LiveCount(tokens[i := t])
         == LiveCount(tokens) - (if Live(tokens[i]) then 1 else 0) + (if Live(t) then 1 else 0)
  {
    var n := |tokens| - 1;
    if i < n {
      LiveCountUpdate(tokens[..n], i, t);
      assert tokens[i := t][..n] == tokens[..n][i := t];
    } else {
      assert tokens[i := t][..n] == tokens[..n];
    }
  }

  ghost predicate HasHash(tokens: seq<Token>, hash: string) { exists i :: 0 <= i < |tokens| && tokens[i].hash == hash }

  ghost predicate HasLive(tokens: seq<Token>, hash: string) { exists i :: 0 <= i < |tokens| && tokens[i].hash == hash && Live(tokens[i]) }

  /** How many sessions a run opened: logins whose token is new. */
  ghost function Opened(s: State, steps: seq<Step>): nat
    decreases |steps|
  {
    if steps == [] then 0
    else (if steps[0].Login? && !HasHash(s.tokens, steps[0].hash) then 1 else 0) + Opened(Next(s, steps[0]), steps[1..])
  }

  /** How many it closed: logouts of a token that is live. */
  ghost function Closed(s: State, steps: seq<Step>): nat
    decreases |steps|
  {
    if steps == [] then 0
    else (if steps[0].Logout? && HasLive(s.tokens, steps[0].hash) then 1 else 0) + Closed(Next(s, steps[0]), steps[1..])
  }

  lemma {:induction false} HashIsFound(s: State, hash: string)
    requires Inv(s)
    ensures var i := FindHash(s.tokens, hash);
      && (HasHash(s.tokens, hash) <==> i < |s.tokens|)
      && (HasLive(s.tokens, hash) <==> i < |s.tokens| && Live(s.tokens[i]))
      && (forall j :: 0 <= j < |s.tokens| && s.tokens[j].hash == hash ==> j == i)
  {
  }

  lemma {:induction false} RotationKeepsCount(s: State, i: nat, hash: string, lifetime: nat)
    requires i < |s.tokens|
    ensures LiveCount(Rotated(s, i, hash, lifetime).tokens) == LiveCount(s.tokens)
  {
    if Live(s.tokens[i]) && FindHash(s.tokens, hash) == |s.tokens| {
      var spent := s.tokens[i].(revokedAt := Some(s.now)).(replacedBy := Some(|s.tokens|));
      var successor := Token(s.tokens[i].staff, hash, s.now + lifetime, None, None);
      LiveCountUpdate(s.tokens, i, spent);
      var after := Rotated(s, i, hash, lifetime).tokens;
      assert after == s.tokens[i := spent] + [successor];
      assert after[..|s.tokens|] == s.tokens[i := spent];
    }
  }

  lemma {:induction false} StepCountsSessions(s: State, step: Step)
    requires Inv(s)
    ensures LiveCount(Next(s, step).tokens) == LiveCount(s.tokens)
         + (if step.Login? && !HasHash(s.tokens, step.hash) then 1 else 0)
         - (if step.Logout? && HasLive(s.tokens, step.hash) then 1 else 0)
  {
    match step
    case Login(staff, hash, lifetime) =>
      HashIsFound(s, hash);
      var t := Token(staff, hash, s.now + lifetime, None, None);
      assert (s.tokens + [t])[..|s.tokens|] == s.tokens;
    case RefreshCommit(request, hash, lifetime) =>
      if request < |s.admitted| && s.admitted[request] < |s.tokens| {
        RotationKeepsCount(s, s.admitted[request], hash, lifetime);
      }
    case Logout(hash) =>
      HashIsFound(s, hash);
      var i := FindHash(s.tokens, hash);
      if i < |s.tokens| {
        LiveCountUpdate(s.tokens, i, s.tokens[i].(revokedAt := Some(s.now)));
      }
    case RefreshRead(_, _) =>
    case Wait(_) =>
  }

  /** Rotation neither multiplies nor loses sessions: however refreshes race, the live tokens are the
      sessions opened and not yet closed. */
  lemma {:induction false} SessionsAreConserved(s: State, steps: seq<Step>)
    requires Inv(s)
    ensures LiveCount(Run(s, steps).tokens) == LiveCount(s.tokens) + Opened(s, steps) - Closed(s, steps)
    decreases |steps|
  {
    if steps != [] {
      StepCountsSessions(s, steps[0]);
      StepKeepsInv(s, steps[0]);
      SessionsAreConserved(Next(s, steps[0]), steps[1..]);
    }
  }

  // ------------------------------------------------------------ what a step leaves

  /** A login with a new hash opens a session of its account: one live token, valid for its lifetime from now. */
  lemma {:induction false} LoginIssues(s: State, staff: string, hash: string, lifetime: nat)
    requires Inv(s)
    ensures Next(s, Login(staff, hash, lifetime)) ==
      if HasHash(s.tokens, hash) then s
      else s.(tokens := s.tokens + [Token(staff, hash, s.now + lifetime, None, None)])
  {
    HashIsFound(s, hash);
  }

  /** After a logout no live token has the hash: the one that had is revoked now, and every other is as it was. */
  lemma {:induction false} LogoutEndsItsSession(s: State, hash: string)
    requires Inv(s)
    ensures var after := Next(s, Logout(hash));
      && after == s.(tokens := after.tokens) && |after.tokens| == |s.tokens|
      && !HasLive(after.tokens, hash)
      && forall i :: 0 <= i < |s.tokens| ==>
           after.tokens[i] == if s.tokens[i].hash == hash && Live(s.tokens[i]) then s.tokens[i].(revokedAt := Some(s.now)) else s.tokens[i]
  {
    HashIsFound(s, hash);
  }

  /** Committing an admitted refresh: the token it read, if it is still live, is revoked now in favour of one new live
      token of the same account, valid for its lifetime from now. Every other token is as it was. */
  lemma {:induction false} RefreshReplacesItsToken(s: State, request: nat, hash: string, lifetime: nat)
    requires Inv(s) && request < |s.admitted|
    ensures var i, after := s.admitted[request], Next(s, RefreshCommit(request, hash, lifetime));
      if Live(s.tokens[i]) && !HasHash(s.tokens, hash)
      then && after == s.(tokens := after.tokens) && |after.tokens| == |s.tokens| + 1
           && after.tokens[i] == s.tokens[i].(revokedAt := Some(s.now), replacedBy := Some(|s.tokens|))
           && after.tokens[|s.tokens|] == Token(s.tokens[i].staff, hash, s.now + lifetime, None, None)
           && (forall j :: 0 <= j < |s.tokens| && j != i ==> after.tokens[j] == s.tokens[j])
      else after == s
  {
    HashIsFound(s, hash);
  }

  /** Two requests that were both admitted with the same token: whatever happens in between, the
      second commit changes nothing once the first has rotated the token. */
  lemma {:induction false} OnlyOneRefreshWins(s: State, a: nat, b: nat, hash: string, lifetime: nat, between: seq<Step>,
                                              again: string, lifetime': nat)
    requires Inv(s) && a < |s.admitted| && b < |s.admitted| && s.admitted[a] == s.admitted[b]
    requires FindHash(s.tokens, hash) == |s.tokens|
    ensures var t := Run(Next(s, RefreshCommit(a, hash, lifetime)), between);
            Next(t, RefreshCommit(b, again, lifetime')) == t
  {
    var won := Next(s, RefreshCommit(a, hash, lifetime));
    StepKeepsInv(s, RefreshCommit(a, hash, lifetime));
    RevokedForGood(won, between);
    AdmittedGrows(won, between);
    assert !Live(won.tokens[s.admitted[a]]);
  }

  lemma {:induction false} AdmittedGrows(s: State, steps: seq<Step>)
    ensures |s.admitted| <= |Run(s, steps).admitted|
    ensures forall r :: 0 <= r < |s.admitted| ==> Run(s, steps).admitted[r] == s.admitted[r]
    decreases |steps|
  {
    if steps != [] {
      AdmittedGrows(Next(s, steps[0]), steps[1..]);
    }
  }

  /** A refresh is admitted exactly for a live, unexpired token of an active account, and with that token. */
  lemma {:induction false} AdmittedIff(s: State, hash: string, staffIsActive: bool)
    requires Inv(s)
    ensures var after := Next(s, RefreshRead(hash, staffIsActive));
      && (after == s || exists i :: 0 <= i < |s.tokens| && s.tokens[i].hash == hash && after == s.(admitted := s.admitted + [i]))
    ensures |Next(s, RefreshRead(hash, staffIsActive)).admitted| > |s.admitted|
       <==> staffIsActive && exists i :: 0 <= i < |s.tokens| && s.tokens[i].hash == hash && Live(s.tokens[i]) && s.tokens[i].expiresAt >= s.now
  {
    var i := FindHash(s.tokens, hash);
    if i < |s.tokens| {
      assert forall j :: 0 <= j < |s.tokens| && s.tokens[j].hash == hash ==> j == i;
    }
  }

  /** Committing a refresh of the last, live token of a chain extends that chain by one live token. */
  lemma {:induction false} RotationExtendsItsChain(s: State, path: seq<nat>, hash: string, lifetime: nat)
    requires Inv(s) && Chain(s.tokens, path) && Live(s.tokens[path[|path| - 1]]) && FindHash(s.tokens, hash) == |s.tokens|
    ensures var after := Rotated(s, path[|path| - 1], hash, lifetime).tokens;
      && Chain(after, path + [|s.tokens|])
      && |after| == |s.tokens| + 1 && Live(after[|s.tokens|]) && !Live(after[path[|path| - 1]])
      && after[|s.tokens|].staff == s.tokens[path[|path| - 1]].staff
      && after[|s.tokens|].expiresAt == s.now + lifetime
  {
    var last := path[|path| - 1];
    var after := Rotated(s, last, hash, lifetime).tokens;
    var longer := path + [|s.tokens|];
    forall x | 0 < x < |longer| ensures after[longer[x - 1]].replacedBy == Some(longer[x]) {
      if x < |path| {
        assert s.tokens[path[x - 1]].replacedBy == Some(path[x]);
        assert WellLinked(s.tokens, path[x - 1]);
      }
    }
  }
}
