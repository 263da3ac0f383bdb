/** The Pixhub adapter's token cache and its single retry, with any number of concurrent callers.
    Reading the clock, the locked cache lookup, the authentication call, the locked store and the
    sending of the operation are separate steps. Times are milliseconds. */
module TokenCache {
  import opened Wrappers

  type Id = nat

  /** Tokens are numbered in the order the provider issues them; `key` names the connection and
      client the token was asked for. */
  datatype Issue = Issue(key: string, at: int, declared: int)

  datatype Cached = Cached(token: nat, expiresAt: int)

  datatype AuthReply = NoToken | Issued(expiresIn: int)

  datatype SendReply = NetworkError | HttpStatus(code: int)

  const UNAUTHORIZED := HttpStatus(401)

  /** How long a token is cached: a minute when no lifetime is declared, and ten seconds less
      than the lifetime when that leaves anything. */
  function Ttl(expiresIn: int): int {
    var ttl := if expiresIn <= 0 then 60_000 else expiresIn;
    if ttl > 10_000 then ttl - 10_000 else ttl
  }

  /** The cache holds a token for the key that has not expired. */
  predicate Alive(tokens: map<string, Cached>, key: string, now: int) {
    key in tokens && now < tokens[key].expiresAt
  }

  /** `retry` is the force flag of token(): set on the second pass, after a 401. `now` is the clock
      as that pass read it. */
  datatype Pc =
    | ReadClock(retry: bool)
    | Lookup(retry: bool, now: int)
    | Authenticate(retry: bool, now: int)
    | Save(retry: bool, now: int, token: nat)
    | Send(retry: bool, now: int, token: nat)
    | Done

  datatype Run = Run(key: string, pc: Pc)

  /** `now` is the clock reading that chose the token, `at` the moment it is sent. */
  datatype Observation = Served(run: Id, token: nat, now: int)
      | Sent(run: Id, token: nat, now: int, at: int, reply: SendReply)

  datatype State = State(clock: int, tokens: map<string, Cached>, issued: seq<Issue>, runs: map<Id, Run>,
                         log: seq<Observation>)

  datatype Choice = Choice(auth: AuthReply, reply: SendReply)

  datatype Action = Start(run: Id, key: string) | Tick(elapsed: nat) | Advance(run: Id, choice: Choice)

  function Initial(clock: int): State {
    State(clock, map[], [], map[], [])
  }

  function At(s: State, rid: Id, pc: Pc): State
    requires rid in s.runs
  {
    s.(runs := s.runs[rid := s.runs[rid].(pc := pc)])
  }

  function Step(s: State, rid: Id, c: Choice): State
    requires rid in s.runs
  {
    var key := s.runs[rid].key;
    match s.runs[rid].pc
    case ReadClock(retry) => At(s, rid, Lookup(retry, s.clock))
    case Lookup(retry, now) =>
      if !retry && Alive(s.tokens, key, now) then
        At(s, rid, Send(retry, now, s.tokens[key].token)).(log := s.log + [Served(rid, s.tokens[key].token, now)])
      else
        At(s, rid, Authenticate(retry, now)).(tokens := s.tokens - {key})
    case Authenticate(retry, now) =>
      (
        match c.auth
        case NoToken => At(s, rid, Done)
        case Issued(expiresIn) =>
          At(s, rid, Save(retry, now, |s.issued|)).(issued := s.issued + [Issue(key, s.clock, expiresIn)])
      )
    case Save(retry, now, token) =>
      if token >= |s.issued| then At(s, rid, Done)
      else
        At(s, rid, Send(retry, now, token))
          .(tokens := s.tokens[key := Cached(token, now + Ttl(s.issued[token].declared))])
    case Send(retry, now, token) =>
      At(s, rid, if c.reply == UNAUTHORIZED && !retry then ReadClock(true) else Done)
        .(log := s.log + [Sent(rid, token, now, s.clock, c.reply)])
    case Done => s
  }

  function Next(s: State, a: Action): State {
    match a
    case Start(r, key) => if r in s.runs then s else s.(runs := s.runs[r := Run(key, ReadClock(false))])
    case Tick(elapsed) => s.(clock := s.clock + elapsed)
    case Advance(r, c) => if r in s.runs then Step(s, r, c) else s
  }

  function Exec(s: State, history: seq<Action>): State
    decreases |history|
  {
    if history == [] then s else Exec(Next(s, history[0]), history[1..])
  }

  /** The operation's sends by one request, in order. */
  function Sends(log: seq<Observation>, rid: Id): seq<SendReply> {
    if log == [] then []
    else
      var last := log[|log| - 1];
      Sends(log[..|log| - 1], rid) + if last.Sent? && last.run == rid then [last.reply] else []
  }

  // --- the invariant --------------------------------------------------------------------

  /** Token `token` was issued for the key, and `now` is before the end of its cached lifetime. */
  predicate GoodAt(s: State, key: string, token: nat, now: int) {
    && token < |s.issued| && s.issued[token].key == key
    && now < s.issued[token].at + Ttl(s.issued[token].declared)
  }

  ghost predicate CacheOk(s: State) {
    forall k <- s.tokens :: GoodAt(s, k, s.tokens[k].token, s.tokens[k].expiresAt - 1)
  }

  ghost predicate PcOk(s: State, key: string, pc: Pc) {
    match pc
    case Lookup(_, now) => now <= s.clock
    case Authenticate(_, now) => now <= s.clock
    case Save(_, now, token) => token < |s.issued| && s.issued[token].key == key && now <= s.issued[token].at
    case Send(_, now, token) => GoodAt(s, key, token, now)
    case _ => true
  }

  ghost predicate SendsOk(pc: Pc, sends: seq<SendReply>) {
    match pc
    case Done => |sends| <= 1 || (|sends| == 2 && sends[0] == UNAUTHORIZED)
    case _ => sends == if pc.retry then [UNAUTHORIZED] else []
  }

  ghost predicate ObservationOk(s: State, o: Observation) {
    o.run in s.runs && GoodAt(s, s.runs[o.run].key, o.token, o.now)
  }

  ghost predicate PcsOk(s: State) {
    forall r <- s.runs :: PcOk(s, s.runs[r].key, s.runs[r].pc)
  }

  ghost predicate RetriesOk(s: State) {
    forall r <- s.runs :: SendsOk(s.runs[r].pc, Sends(s.log, r))
  }

  ghost predicate LogOk(s: State) {
    forall o <- s.log :: ObservationOk(s, o)
  }

  ghost predicate Inv(s: State) {
    CacheOk(s) && PcsOk(s) && RetriesOk(s) && LogOk(s)
  }

  lemma {:induction false} NoSends(log: seq<Observation>, rid: Id)
    requires forall o <- log :: o.run != rid
    ensures Sends(log, rid) == []
  {
    if log != [] { NoSends(log[..|log| - 1], rid); }
  }

  lemma SendsAppend(log: seq<Observation>, o: Observation, rid: Id)
    ensures Sends(log + [o], rid) == Sends(log, rid) + if o.Sent? && o.run == rid then [o.reply] else []
  {
    assert (log + [o])[..|log|] == log;
  }

  /** The sends of run r after a step of run rid. */
  lemma SendsAfterStep(s: State, rid: Id, c: Choice, r: Id)
    requires rid in s.runs
    ensures Sends(Step(s, rid, c).log, r)
            == Sends(s.log, r) + if r == rid && s.runs[rid].pc.Send? then [c.reply] else []
  {
    var log' := Step(s, rid, c).log;
    if log' == s.log {
      assert Sends(s.log, r) == Sends(s.log, r) + [];
    } else {
      SendsAppend(s.log, log'[|s.log|], r);
    }
  }

  /** The moving run, given the sends it has made. */
  lemma MoverKeeps(s: State, rid: Id, c: Choice, sends: seq<SendReply>)
    requires rid in s.runs && SendsOk(s.runs[rid].pc, sends)
    ensures rid in Step(s, rid, c).runs
    ensures SendsOk(Step(s, rid, c).runs[rid].pc, if s.runs[rid].pc.Send? then sends + [c.reply] else sends)
  {
  }

  lemma OthersStay(s: State, rid: Id, c: Choice, r: Id)
    requires rid in s.runs && r in s.runs && r != rid
    ensures r in Step(s, rid, c).runs && Step(s, rid, c).runs[r] == s.runs[r]
  {
  }

  lemma RetryKeeps(s: State, rid: Id, c: Choice, r: Id)
    requires rid in s.runs && r in s.runs && SendsOk(s.runs[r].pc, Sends(s.log, r))
    ensures r in Step(s, rid, c).runs && SendsOk(Step(s, rid, c).runs[r].pc, Sends(Step(s, rid, c).log, r))
  {
    hide Sends, SendsOk, Step;
    SendsAfterStep(s, rid, c, r);
    if r == rid { MoverKeeps(s, rid, c, Sends(s.log, r)); } else { OthersStay(s, rid, c, r); }
    assert Sends(s.log, r) + [] == Sends(s.log, r);
  }

  lemma StepKeepsRetries(s: State, rid: Id, c: Choice)
    requires RetriesOk(s) && rid in s.runs
    ensures RetriesOk(Step(s, rid, c))
  {
    hide Sends, SendsOk;
    forall r <- s.runs ensures SendsOk(Step(s, rid, c).runs[r].pc, Sends(Step(s, rid, c).log, r)) {
      RetryKeeps(s, rid, c, r);
    }
  }

  lemma StepKeepsCache(s: State, rid: Id, c: Choice)
    requires CacheOk(s) && rid in s.runs && PcOk(s, s.runs[rid].key, s.runs[rid].pc)
    ensures CacheOk(Step(s, rid, c))
  {
  }

  /** What a step observes is good if its run and the cache are. */
  lemma StepObservesGood(s: State, rid: Id, c: Choice)
    requires CacheOk(s) && rid in s.runs && PcOk(s, s.runs[rid].key, s.runs[rid].pc)
    ensures var s' := Step(s, rid, c);
            && s.issued <= s'.issued && (forall r <- s.runs :: r in s'.runs && s'.runs[r].key == s.runs[r].key)
            && (s'.log == s.log || exists o :: s'.log == s.log + [o] && ObservationOk(s', o))
  {
    if s.runs[rid].pc.Lookup? || s.runs[rid].pc.Send? {
      var s' := Step(s, rid, c);
      if s'.log != s.log {
        var o := s'.log[|s.log|];
        assert s'.log == s.log + [o] && ObservationOk(s', o);
      }
    }
  }

  lemma StepKeepsLog(s: State, rid: Id, c: Choice)
    requires CacheOk(s) && LogOk(s) && rid in s.runs && PcOk(s, s.runs[rid].key, s.runs[rid].pc)
    ensures LogOk(Step(s, rid, c))
  {
    StepObservesGood(s, rid, c);
    hide Step, CacheOk, PcOk, Ttl;
  }

  lemma StepKeepsInv(s: State, rid: Id, c: Choice)
    requires Inv(s) && rid in s.runs
    ensures Inv(Step(s, rid, c))
  {
    hide RetriesOk, SendsOk, Sends;
    StepKeepsRetries(s, rid, c);
    StepKeepsCache(s, rid, c);
    StepKeepsLog(s, rid, c);
    assert PcsOk(Step(s, rid, c));
  }

  lemma NextKeepsInv(s: State, a: Action)
    requires Inv(s)
    ensures Inv(Next(s, a))
  {
    match a
    case Start(r, key) => if r !in s.runs { NoSends(s.log, r); }
    case Tick(_) =>
    case Advance(r, c) => if r in s.runs { StepKeepsInv(s, r, c); }
  }

  lemma {:induction false} ExecKeepsInv(s: State, history: seq<Action>)
    requires Inv(s)
    ensures Inv(Exec(s, history))
    decreases |history|
  {
    if history != [] {
      NextKeepsInv(s, history[0]);
      ExecKeepsInv(Next(s, history[0]), history[1..]);
    }
  }

  // --- what every history keeps ------------------------------------------------------------

  /** A token is served from the cache only to the key it was issued for, and strictly before the
      lifetime the provider declared for it runs out, counted from the moment it was issued; at
      least ten seconds before when that lifetime exceeds ten seconds. */
  lemma ServedTokensAreAlive(clock: int, history: seq<Action>, i: nat)
    requires i < |Exec(Initial(clock), history).log| && Exec(Initial(clock), history).log[i].Served?
    ensures var s := Exec(Initial(clock), history); var o := s.log[i];
            && o.run in s.runs && o.token < |s.issued|
            && var issue := s.issued[o.token];
               && issue.key == s.runs[o.run].key
               && (issue.declared > 0 ==> o.now < issue.at + issue.declared)
               && (issue.declared > 10_000 ==> o.now + 10_000 < issue.at + issue.declared)
               && (issue.declared <= 0 ==> o.now + 10_000 < issue.at + 60_000)
  {
    ExecKeepsInv(Initial(clock), history);
    assert ObservationOk(Exec(Initial(clock), history), Exec(Initial(clock), history).log[i]);
  }

  /** Whatever happens between choosing a token and sending it, a send within ten seconds of the
      clock reading that chose the token, cached or new, first or retried, carries a token of the
      caller's own key that is still alive, when its lifetime exceeds ten seconds. */
  lemma SentTokensAreAlive(clock: int, history: seq<Action>, i: nat)
    requires i < |Exec(Initial(clock), history).log| && Exec(Initial(clock), history).log[i].Sent?
    ensures var s := Exec(Initial(clock), history); var o := s.log[i];
            && o.run in s.runs && o.token < |s.issued|
            && var issue := s.issued[o.token];
               && issue.key == s.runs[o.run].key
               && (issue.declared > 10_000 && o.at <= o.now + 10_000 ==> o.at < issue.at + issue.declared)
  {
    ExecKeepsInv(Initial(clock), history);
    assert ObservationOk(Exec(Initial(clock), history), Exec(Initial(clock), history).log[i]);
  }

  /** One request sends the operation at most twice, the second time only after a 401; so at most
      one send got anything other than a 401. */
  lemma AtMostOneSendIsNotRefused(clock: int, history: seq<Action>, rid: Id)
    ensures var sends := Sends(Exec(Initial(clock), history).log, rid);
            && |sends| <= 2
            && (|sends| == 2 ==> sends[0] == UNAUTHORIZED)
            && (forall i, j :: 0 <= i < j < |sends| ==> sends[i] == UNAUTHORIZED || sends[j] == UNAUTHORIZED)
  {
    ExecKeepsInv(Initial(clock), history);
    var s := Exec(Initial(clock), history);
    if rid !in s.runs { NoSends(s.log, rid); }
  }

  /** A stored token is served to every caller of its key that reads the clock before the token's
      cached lifetime ends: fifty seconds when none was declared, otherwise ten seconds less than
      declared when that leaves anything. */
  lemma AStoredTokenIsServed(s: State, saver: Id, caller: Id, token: nat, now: int, later: int, c: Choice)
    requires saver in s.runs && caller in s.runs && saver != caller && s.runs[saver].key == s.runs[caller].key
    requires (exists retry: bool :: s.runs[saver].pc == Save(retry, now, token)) && token < |s.issued|
    requires s.runs[caller].pc == Lookup(false, later)
    requires var declared := s.issued[token].declared;
             later - now < if declared <= 0 then 50_000 else if declared > 10_000 then declared - 10_000 else declared
    ensures var s' := Next(Next(s, Advance(saver, c)), Advance(caller, c));
            && caller in s'.runs && s'.runs[caller].pc == Send(false, later, token)
            && s'.log == s.log + [Served(caller, token, later)] && s'.issued == s.issued
  {
  }

  function Advanced(s: State, rid: Id, c: Choice, times: nat): State
    decreases times
  {
    if times == 0 then s else Advanced(Next(s, Advance(rid, c)), rid, c, times - 1)
  }

  /** After a 401 the cache is bypassed: when authentication succeeds, the operation is sent once more
      with a token that has just been issued, which replaces the refused one in the cache; the result
      of that send is final, even if it is another 401. */
  lemma ARefusedTokenIsReplaced(s: State, rid: Id, now: int, token: nat, lifetime: int, reply: SendReply)
    requires rid in s.runs && s.runs[rid].pc == Send(false, now, token)
    ensures var second, at := |s.issued|, s.clock;
            var s' := Advanced(Next(s, Advance(rid, Choice(NoToken, UNAUTHORIZED))), rid,
                               Choice(Issued(lifetime), reply), 5);
            && s'.log == s.log + [Sent(rid, token, now, at, UNAUTHORIZED), Sent(rid, second, at, at, reply)]
            && s'.issued == s.issued + [Issue(s.runs[rid].key, at, lifetime)]
            && s'.tokens == s.tokens[s.runs[rid].key := Cached(second, at + Ttl(lifetime))]
            && rid in s'.runs && s'.runs[rid].pc == Done
  {
    var key := s.runs[rid].key;
    var c := Choice(Issued(lifetime), reply);
    var s1 := Next(s, Advance(rid, Choice(NoToken, UNAUTHORIZED)));
    var s2 := Next(s1, Advance(rid, c));
    var s3 := Next(s2, Advance(rid, c));
    var s4 := Next(s3, Advance(rid, c));
    var s5 := Next(s4, Advance(rid, c));
    assert s5.tokens == s.tokens[key := Cached(|s.issued|, s.clock + Ttl(lifetime))];
    var s6 := Next(s5, Advance(rid, c));
    assert s6.log == s.log + [Sent(rid, token, now, s.clock, UNAUTHORIZED),
                              Sent(rid, |s.issued|, s.clock, s.clock, reply)];
    hide Next;
    assert Advanced(s4, rid, c, 2) == s6;
    assert Advanced(s1, rid, c, 5) == Advanced(s2, rid, c, 4) == Advanced(s3, rid, c, 3) == s6;
  }

  // --- the adapter object --------------------------------------------------------------------

  /** The adapter with its cache. The environment's answers are arguments. */
  class Adapter {
    var tokens: map<string, Cached>

    constructor ()
      ensures tokens == map[]
    {
      tokens := map[];
    }

    /** token(): `issueNumber` is the number of the token the provider would issue. */
    method Token(key: string, force: bool, now: int, auth: AuthReply, issueNumber: nat) returns (token: Option<nat>)
      modifies this
      ensures !force && Alive(old(tokens), key, now) ==>
                token == Some(old(tokens)[key].token) && tokens == old(tokens)
      ensures !(!force && Alive(old(tokens), key, now)) ==>
                match auth
                case NoToken => token == None && tokens == old(tokens) - {key}
                case Issued(expiresIn) =>
                  token == Some(issueNumber) && tokens == old(tokens)[key := Cached(issueNumber, now + Ttl(expiresIn))]
    {
      if !force {
        if Alive(tokens, key, now) {
          return Some(tokens[key].token);
        }
      }
      tokens := tokens - {key};
      if auth == NoToken { return None; }
      var ttl := auth.expiresIn;
      if ttl <= 0 { ttl := 60_000; }
      if ttl > 10_000 { ttl := ttl - 10_000; }
      tokens := tokens[key := Cached(issueNumber, now + ttl)];
      return Some(issueNumber);
    }

    /** request(): send, and after a 401 send once more with a forced token. `used` lists the
        token of every send. */
    method Request(key: string, now: (int, int), auth: (AuthReply, AuthReply), issueNumber: nat,
                   reply: (SendReply, SendReply))
      returns (result: Option<SendReply>, used: seq<nat>)
      modifies this
      ensures |used| <= 2
      ensures used == [] <==> !Alive(old(tokens), key, now.0) && auth.0.NoToken?
      ensures used != [] ==> used[0] == if Alive(old(tokens), key, now.0) then old(tokens)[key].token else issueNumber
      ensures |used| == 2 <==> (used != [] && reply.0 == UNAUTHORIZED && auth.1.Issued?)
      ensures |used| == 2 ==> used[1] == issueNumber + 1
      ensures result == if used == [] then None else Some(if |used| == 1 then reply.0 else reply.1)
      ensures |used| == 2 ==> tokens == old(tokens)[key := Cached(issueNumber + 1, now.1 + Ttl(auth.1.expiresIn))]
      ensures |used| == 1 && reply.0 == UNAUTHORIZED ==> tokens == old(tokens) - {key}
    {
      used := [];
      var token := Token(key, false, now.0, auth.0, issueNumber);
      if token.None? { return None, used; }
      used := used + [token.value];
      if reply.0 != UNAUTHORIZED { return Some(reply.0), used; }
      token := Token(key, true, now.1, auth.1, issueNumber + 1);
      if token.None? { return Some(UNAUTHORIZED), used; }
      used := used + [token.value];
      return Some(reply.1), used;
    }
  }
}
