/** Logins and callbacks interleaving over the session store: state and PKCE
    verifier are redeemed at most once (section 10.12 of RFC 6749, section 4 of RFC 7636). */
module LoginProtocol {
  import opened Wrappers
  import opened SessionStore

  datatype Payload =
    | Transaction(state: string, nonce: string, verifier: string, returnTo: string, createdAt: real)
    | Session(accessToken: string, refreshToken: Option<string>, idToken: Option<string>,
              validUntil: real, startedAt: real)

  datatype SessionError = InvalidIdentifier | CapacityExceeded | MissingOrExpired | InvalidPayload

  // ------------------------------------------------------------- the keys

  predicate ValidIdentifier(id: string) {
    0 < |id| <= 256
  }

  function Key(kind: string, id: string): string {
    "kb:oidc:" + kind + ":" + id
  }

  lemma FirstColon(kind: string, id: string)
    requires ':' !in kind
    ensures (kind + ":" + id)[|kind|] == ':' && (kind + ":" + id)[..|kind|] == kind
    ensures (kind + ":" + id)[|kind| + 1..] == id
    ensures forall i | 0 <= i < |kind| :: (kind + ":" + id)[i] != ':'
  {
    forall i | 0 <= i < |kind|
      ensures (kind + ":" + id)[i] != ':'
    {
      assert (kind + ":" + id)[i] == kind[i] && kind[i] in kind;
    }
  }

  /** Different kinds or identifiers never share a key, whatever colons an identifier contains. */
  lemma KeysAreDistinct(k1: string, i1: string, k2: string, i2: string)
    requires ':' !in k1 && ':' !in k2 && Key(k1, i1) == Key(k2, i2)
    ensures k1 == k2 && i1 == i2
  {
    FirstColon(k1, i1);
    FirstColon(k2, i2);
    assert Key(k1, i1)[8..] == k1 + ":" + i1 && Key(k2, i2)[8..] == k2 + ":" + i2;
  }

  function TransactionKey(state: string): string {
    Key("transaction", state)
  }

  function SessionKey(id: string): string {
    Key("session", id)
  }

  // --------------------------------------------- the manager's operations

  function Store(m: Memory<Payload>, key: string, payload: Payload, ttl: real, now: real)
    : (Memory<Payload>, Result<(), SessionError>)
  {
    var (m', answer) := PurgingStep(m, PutOp(key, payload, ttl), now);
    (m', if answer == Done then Success(()) else Failure(CapacityExceeded))
  }

  function Consume(m: Memory<Payload>, state: string, now: real): (Memory<Payload>, Result<Payload, SessionError>) {
    if !ValidIdentifier(state) then (m, Failure(InvalidIdentifier))
    else
      var (m', answer) := PurgingStep(m, ConsumeOp(TransactionKey(state)), now);
      match answer
      case Found(payload) =>
        (m', if payload.Transaction? && payload.state == state then Success(payload) else Failure(InvalidPayload))
      case _ => (m', Failure(MissingOrExpired))
  }

  function OpenSession(m: Memory<Payload>, id: string, session: Payload, ttl: real, now: real)
    : (Memory<Payload>, Result<(), SessionError>)
  {
    if !ValidIdentifier(id) then (m, Failure(InvalidIdentifier))
    else Store(m, SessionKey(id), session, ttl, now)
  }

  function Fetch(m: Memory<Payload>, id: string, now: real): (Memory<Payload>, Result<Payload, SessionError>) {
    if !ValidIdentifier(id) then (m, Failure(InvalidIdentifier))
    else
      var (m', answer) := PurgingStep(m, GetOp(SessionKey(id)), now);
      match answer
      case Found(payload) => (m', if payload.Session? then Success(payload) else Failure(InvalidPayload))
      case _ => (m', Failure(MissingOrExpired))
  }

  /** The session manager over the process-local store. */
  class SessionManager {
    const store: MemoryStore<Payload>
    const transactionTtl: real
    const sessionTtl: real

    constructor (transactionTtl: real, sessionTtl: real)
      ensures fresh(store) && store.memory == map[]
      ensures this.transactionTtl == transactionTtl && this.sessionTtl == sessionTtl
    {
      store := new MemoryStore();
      this.transactionTtl, this.sessionTtl := transactionTtl, sessionTtl;
    }

    method CreateLoginTransaction(transaction: Payload, now: real) returns (r: Result<(), SessionError>)
      requires transaction.Transaction? && ValidIdentifier(transaction.state)
      modifies store
      ensures (store.memory, r) == Store(old(store.memory), TransactionKey(transaction.state), transaction, transactionTtl, now)
    {
      var answer := store.Put(TransactionKey(transaction.state), transaction, transactionTtl, now);
      r := if answer == Done then Success(()) else Failure(CapacityExceeded);
    }

    method ConsumeLoginTransaction(state: string, now: real) returns (r: Result<Payload, SessionError>)
      modifies store
      ensures (store.memory, r) == Consume(old(store.memory), state, now)
    {
      if !ValidIdentifier(state) {
        return Failure(InvalidIdentifier);
      }
      var answer := store.Get(TransactionKey(state), true, now);
      if answer.Absent? {
        return Failure(MissingOrExpired);
      }
      if !answer.value.Transaction? || answer.value.state != state {
        return Failure(InvalidPayload);
      }
      r := Success(answer.value);
    }

    method CreateSession(id: string, session: Payload, now: real) returns (r: Result<(), SessionError>)
      requires session.Session?
      modifies store
      ensures (store.memory, r) == OpenSession(old(store.memory), id, session, sessionTtl, now)
    {
      if !ValidIdentifier(id) {
        return Failure(InvalidIdentifier);
      }
      var answer := store.Put(SessionKey(id), session, sessionTtl, now);
      r := if answer == Done then Success(()) else Failure(CapacityExceeded);
    }

    method GetSession(id: string, now: real) returns (r: Result<Payload, SessionError>)
      modifies store
      ensures (store.memory, r) == Fetch(old(store.memory), id, now)
    {
      if !ValidIdentifier(id) {
        return Failure(InvalidIdentifier);
      }
      var answer := store.Get(SessionKey(id), false, now);
      if answer.Absent? {
        return Failure(MissingOrExpired);
      }
      r := if answer.value.Session? then Success(answer.value) else Failure(InvalidPayload);
    }
  }

  // ----------------------------------------------------------- the protocol

  /** `issued` are the states handed out, `redeemed` the callbacks that hold a consumed
      transaction, `sessions` every browser session opened so far with the state it came from. */
  datatype State = State(
    memory: Memory<Payload>, issued: set<string>, redeemed: map<string, string>, sessions: seq<(string, string)>)

  datatype Step =
    | Login(transaction: Payload, ttl: real, now: real)
    | Callback(request: string, code: Option<string>, state: Option<string>, cookie: Option<string>, error: bool, now: real)
    | Finish(request: string, exchanged: bool, sessionId: string, session: Payload, ttl: real, now: real)
    | Refresh(sessionId: string, session: Payload, ttl: real, now: real)
    | Logout(sessionId: string, now: real)

  /** The checks a callback makes before it touches the store. */
  predicate CallbackAccepted(code: Option<string>, state: Option<string>, cookie: Option<string>, error: bool) {
    && !error && code.Some? && code.value != "" && state.Some? && state.value != ""
    && cookie.Some? && cookie.value != "" && state == cookie
  }

  /** Random states, request handles and session identifiers are fresh when they are first used. */
  function Next(s: State, step: Step): State {
    match step
    case Login(transaction, ttl, now) =>
      if !transaction.Transaction? || !ValidIdentifier(transaction.state) || transaction.state in s.issued then s
      else s.(memory := Store(s.memory, TransactionKey(transaction.state), transaction, ttl, now).0,
              issued := s.issued + {transaction.state})
    case Callback(request, code, state, cookie, error, now) =>
      if !CallbackAccepted(code, state, cookie, error) || request in s.redeemed then s
      else
        var (m, r) := Consume(s.memory, state.value, now);
        s.(memory := m, redeemed := if r.Success? then s.redeemed[request := state.value] else s.redeemed)
    case Finish(request, exchanged, sessionId, session, ttl, now) =>
      if request !in s.redeemed then s
      else if !exchanged || !session.Session? then s.(redeemed := s.redeemed - {request})
      else
        var (m, r) := OpenSession(s.memory, sessionId, session, ttl, now);
        s.(memory := m, redeemed := s.redeemed - {request},
           sessions := if r.Success? then s.sessions + [(s.redeemed[request], sessionId)] else s.sessions)
    case Refresh(sessionId, session, ttl, now) =>
      var (m, r) := Fetch(s.memory, sessionId, now);
      if r.Success? && session.Session? then s.(memory := OpenSession(m, sessionId, session, ttl, now).0)
      else s.(memory := m)
    case Logout(sessionId, now) =>
      if !ValidIdentifier(sessionId) then s
      else s.(memory := PurgingStep(s.memory, DeleteOp(SessionKey(sessionId)), now).0)
  }

  function Execute(s: State, steps: seq<Step>): State {
    if steps == [] then s else Next(Execute(s, steps[..|steps| - 1]), steps[|steps| - 1])
  }

  const EMPTY: State := State(map[], {}, map[], [])

  predicate Stored(s: State, state: string) {
    TransactionKey(state) in s.memory
  }

  predicate Held(s: State, state: string) {
    exists r | r in s.redeemed :: s.redeemed[r] == state
  }

  predicate Opened(s: State, state: string) {
    exists i | 0 <= i < |s.sessions| :: s.sessions[i].0 == state
  }

  /** A login state is in at most one place: still stored, held by one callback, or spent on one session. */
  ghost predicate OnePlace(s: State) {
    && (forall state :: Stored(s, state) ==> !Held(s, state) && !Opened(s, state))
    && (forall state :: Held(s, state) ==> !Opened(s, state))
    && (forall q, r | q in s.redeemed && r in s.redeemed :: s.redeemed[q] == s.redeemed[r] ==> q == r)
    && (forall i, j | 0 <= i < j < |s.sessions| :: s.sessions[i].0 != s.sessions[j].0)
    && (forall state :: Stored(s, state) || Held(s, state) || Opened(s, state) ==> state in s.issued)
  }

  /** Writing or removing session entries, and purging, never brings a transaction back. */
  lemma SessionKeysApart(id: string, state: string)
    ensures SessionKey(id) != TransactionKey(state)
  {
    if SessionKey(id) == TransactionKey(state) {
      KeysAreDistinct("session", id, "transaction", state);
    }
  }

  ghost predicate NoNewTransactions(m: Memory<Payload>, m': Memory<Payload>) {
    forall state :: TransactionKey(state) in m' ==> TransactionKey(state) in m
  }

  lemma ShrinkKeepsOnePlace(s: State, m: Memory<Payload>)
    requires OnePlace(s) && NoNewTransactions(s.memory, m)
    ensures OnePlace(s.(memory := m))
  {
    var s' := s.(memory := m);
    assert forall state :: Stored(s', state) ==> Stored(s, state);
    assert forall state :: Held(s', state) == Held(s, state) && Opened(s', state) == Opened(s, state);
  }

  lemma SessionWritesAddNoTransaction(m: Memory<Payload>, id: string, session: Payload, ttl: real, now: real)
    ensures NoNewTransactions(m, OpenSession(m, id, session, ttl, now).0)
    ensures NoNewTransactions(m, Fetch(m, id, now).0)
    ensures NoNewTransactions(m, PurgingStep(m, DeleteOp(SessionKey(id)), now).0)
  {
    forall state
      ensures SessionKey(id) != TransactionKey(state)
    {
      SessionKeysApart(id, state);
    }
  }

  lemma LoginKeeps(s: State, transaction: Payload, ttl: real, now: real)
    requires OnePlace(s)
    ensures OnePlace(Next(s, Login(transaction, ttl, now)))
  {
    var s' := Next(s, Login(transaction, ttl, now));
    if s' != s {
      forall state | Stored(s', state) && state != transaction.state
        ensures Stored(s, state)
      {
        if TransactionKey(state) == TransactionKey(transaction.state) {
          KeysAreDistinct("transaction", state, "transaction", transaction.state);
        }
      }
      assert forall state :: Held(s', state) == Held(s, state) && Opened(s', state) == Opened(s, state);
    }
  }

  lemma RedeemKeeps(s: State, request: string, state: string, now: real)
    requires OnePlace(s) && request !in s.redeemed && Consume(s.memory, state, now).1.Success?
    ensures OnePlace(s.(memory := Consume(s.memory, state, now).0, redeemed := s.redeemed[request := state]))
  {
    var s' := s.(memory := Consume(s.memory, state, now).0, redeemed := s.redeemed[request := state]);
    assert Stored(s, state) && !Stored(s', state);
    forall other
      ensures Held(s', other) <==> Held(s, other) || other == state
    {
      if Held(s, other) {
        var r :| r in s.redeemed && s.redeemed[r] == other;
        assert r in s'.redeemed && s'.redeemed[r] == other;
      }
      assert request in s'.redeemed && s'.redeemed[request] == state;
    }
    assert forall other :: Opened(s', other) == Opened(s, other);
    assert forall other :: Stored(s', other) ==> Stored(s, other);
    forall q, r | q in s'.redeemed && r in s'.redeemed && s'.redeemed[q] == s'.redeemed[r]
      ensures q == r
    {
      assert q in s.redeemed ==> Held(s, s.redeemed[q]);
      assert r in s.redeemed ==> Held(s, s.redeemed[r]);
    }
  }

  lemma ReleaseKeeps(s: State, request: string)
    requires OnePlace(s) && request in s.redeemed
    ensures OnePlace(s.(redeemed := s.redeemed - {request}))
    ensures !Held(s.(redeemed := s.redeemed - {request}), s.redeemed[request])
    ensures !Stored(s, s.redeemed[request]) && !Opened(s, s.redeemed[request]) && s.redeemed[request] in s.issued
  {
    var s' := s.(redeemed := s.redeemed - {request});
    assert Held(s, s.redeemed[request]);
    assert forall state :: Held(s', state) ==> Held(s, state);
    assert forall state :: Stored(s', state) == Stored(s, state) && Opened(s', state) == Opened(s, state);
  }

  lemma OpenKeeps(s: State, state: string, sessionId: string)
    requires OnePlace(s) && !Stored(s, state) && !Held(s, state) && !Opened(s, state) && state in s.issued
    ensures OnePlace(s.(sessions := s.sessions + [(state, sessionId)]))
  {
    var s' := s.(sessions := s.sessions + [(state, sessionId)]);
    forall other
      ensures Opened(s', other) ==> Opened(s, other) || other == state
    {
      if i :| 0 <= i < |s'.sessions| && s'.sessions[i].0 == other {
        if i < |s.sessions| {
          assert s.sessions[i].0 == other;
        }
      }
    }
    assert forall other :: Stored(s', other) == Stored(s, other) && Held(s', other) == Held(s, other);
    assert forall i | 0 <= i < |s.sessions| :: s.sessions[i].0 != state;
  }

  lemma FinishKeeps(s: State, request: string, exchanged: bool, sessionId: string, session: Payload, ttl: real, now: real)
    requires OnePlace(s)
    ensures OnePlace(Next(s, Finish(request, exchanged, sessionId, session, ttl, now)))
  {
    if request in s.redeemed {
      ReleaseKeeps(s, request);
      var released := s.(redeemed := s.redeemed - {request});
      var (m, r) := OpenSession(s.memory, sessionId, session, ttl, now);
      SessionWritesAddNoTransaction(s.memory, sessionId, session, ttl, now);
      ShrinkKeepsOnePlace(released, m);
      var stored := released.(memory := m);
      assert forall state :: Held(stored, state) == Held(released, state) && Opened(stored, state) == Opened(s, state);
      assert !Stored(stored, s.redeemed[request]);
      OpenKeeps(stored, s.redeemed[request], sessionId);
    }
  }

  lemma StepKeepsOnePlace(s: State, step: Step)
    requires OnePlace(s)
    ensures OnePlace(Next(s, step))
  {
    match step
    case Login(transaction, ttl, now) => LoginKeeps(s, transaction, ttl, now);
    case Callback(request, code, state, cookie, error, now) =>
      if CallbackAccepted(code, state, cookie, error) && request !in s.redeemed {
        ShrinkKeepsOnePlace(s, Consume(s.memory, state.value, now).0);
        if Consume(s.memory, state.value, now).1.Success? {
          RedeemKeeps(s, request, state.value, now);
        }
      }
    case Finish(request, exchanged, sessionId, session, ttl, now) =>
      FinishKeeps(s, request, exchanged, sessionId, session, ttl, now);
    case Refresh(sessionId, session, ttl, now) =>
      var m := Fetch(s.memory, sessionId, now).0;
      SessionWritesAddNoTransaction(s.memory, sessionId, session, ttl, now);
      ShrinkKeepsOnePlace(s, m);
      SessionWritesAddNoTransaction(m, sessionId, session, ttl, now);
      ShrinkKeepsOnePlace(s.(memory := m), OpenSession(m, sessionId, session, ttl, now).0);
    case Logout(sessionId, now) =>
      SessionWritesAddNoTransaction(s.memory, sessionId, EMPTY_SESSION, 0.0, now);
      ShrinkKeepsOnePlace(s, PurgingStep(s.memory, DeleteOp(SessionKey(sessionId)), now).0);
  }

  const EMPTY_SESSION: Payload := Session("", None, None, 0.0, 0.0)

  lemma {:induction false} RunsKeepOnePlace(steps: seq<Step>)
    ensures OnePlace(Execute(EMPTY, steps))
  {
    if steps != [] {
      RunsKeepOnePlace(steps[..|steps| - 1]);
      StepKeepsOnePlace(Execute(EMPTY, steps[..|steps| - 1]), steps[|steps| - 1]);
    }
  }

  // ------------------------------------------------- which transaction a callback gets

  /** A callback's state is redeemed exactly when a transaction for it is stored and alive; what it gets is that
      transaction, and it is gone afterwards. */
  lemma ConsumeIsExact(m: Memory<Payload>, state: string, now: real, payload: Payload)
    ensures Consume(m, state, now).1 == Success(payload)
       <==> && ValidIdentifier(state) && TransactionKey(state) in m && m[TransactionKey(state)].expiresAt > now
            && m[TransactionKey(state)].value == payload && payload.Transaction? && payload.state == state
    ensures ValidIdentifier(state) ==> TransactionKey(state) !in Consume(m, state, now).0
  {
  }

  /** The login step number `i` stored this entry. */
  ghost predicate StoredBy(steps: seq<Step>, i: nat, state: string, entry: Entry<Payload>) {
    && i < |steps| && steps[i].Login? && steps[i].transaction == entry.value
    && entry.value.Transaction? && entry.value.state == state && entry.expiresAt == steps[i].now + steps[i].ttl
  }

  /** Every stored transaction is one that a login made, with its own state and time. */
  ghost predicate FromLogins(steps: seq<Step>, m: Memory<Payload>) {
    forall state | TransactionKey(state) in m :: exists i: nat :: StoredBy(steps, i, state, m[TransactionKey(state)])
  }

  /** Transactions that are still there are as they were. */
  ghost predicate KeepsTransactions(m: Memory<Payload>, m': Memory<Payload>) {
    forall state | TransactionKey(state) in m' ::
      TransactionKey(state) in m && m'[TransactionKey(state)] == m[TransactionKey(state)]
  }

  lemma SessionWritesKeepTransactions(m: Memory<Payload>, id: string, session: Payload, ttl: real, now: real)
    ensures KeepsTransactions(m, OpenSession(m, id, session, ttl, now).0)
    ensures KeepsTransactions(m, Fetch(m, id, now).0)
    ensures KeepsTransactions(m, PurgingStep(m, DeleteOp(SessionKey(id)), now).0)
  {
    forall state
      ensures SessionKey(id) != TransactionKey(state)
    {
      SessionKeysApart(id, state);
    }
  }

  lemma OtherStepsKeepTransactions(s: State, step: Step)
    requires !step.Login?
    ensures KeepsTransactions(s.memory, Next(s, step).memory)
  {
    match step
    case Callback(_, _, _, _, _, _) =>
    case Finish(_, _, sessionId, session, ttl, now) => SessionWritesKeepTransactions(s.memory, sessionId, session, ttl, now);
    case Refresh(sessionId, session, ttl, now) =>
      var m := Fetch(s.memory, sessionId, now).0;
      SessionWritesKeepTransactions(s.memory, sessionId, session, ttl, now);
      SessionWritesKeepTransactions(m, sessionId, session, ttl, now);
    case Logout(sessionId, now) => SessionWritesKeepTransactions(s.memory, sessionId, EMPTY_SESSION, 0.0, now);
  }

  lemma LoginAddsTransaction(s: State, step: Step, state: string)
    requires step.Login? && TransactionKey(state) in Next(s, step).memory
    ensures var entry := Next(s, step).memory[TransactionKey(state)];
            || (TransactionKey(state) in s.memory && entry == s.memory[TransactionKey(state)])
            || StoredBy([step], 0, state, entry)
  {
    if step.transaction.Transaction? && TransactionKey(state) == TransactionKey(step.transaction.state) {
      KeysAreDistinct("transaction", state, "transaction", step.transaction.state);
    }
  }

  lemma StoredByLonger(steps: seq<Step>, last: Step, i: nat, state: string, entry: Entry<Payload>)
    requires StoredBy(steps, i, state, entry)
    ensures StoredBy(steps + [last], i, state, entry)
  {
  }

  lemma {:induction false} RunsStoreLogins(steps: seq<Step>)
    ensures FromLogins(steps, Execute(EMPTY, steps).memory)
  {
    if steps != [] {
      var front, last := steps[..|steps| - 1], steps[|steps| - 1];
      RunsStoreLogins(front);
      var s := Execute(EMPTY, front);
      assert steps == front + [last];
      if !last.Login? {
        OtherStepsKeepTransactions(s, last);
      }
      forall state | TransactionKey(state) in Next(s, last).memory
        ensures exists i: nat :: StoredBy(steps, i, state, Next(s, last).memory[TransactionKey(state)])
      {
        var entry := Next(s, last).memory[TransactionKey(state)];
        if last.Login? {
          LoginAddsTransaction(s, last, state);
        }
        if TransactionKey(state) in s.memory && entry == s.memory[TransactionKey(state)] {
          var i: nat :| StoredBy(front, i, state, entry);
          StoredByLonger(front, last, i, state, entry);
        } else {
          assert StoredBy(steps, |front|, state, entry);
        }
      }
    }
  }

  /** A callback touches the store only with a code, without an error, and when its state is the one in the
      browser's cookie; it redeems a transaction exactly when moreover one is stored for that state and alive. */
  lemma CallbackRedeemsIff(s: State, request: string, code: Option<string>, state: Option<string>, cookie: Option<string>,
                           error: bool, now: real)
    requires request !in s.redeemed
    ensures var s' := Next(s, Callback(request, code, state, cookie, error, now));
            && (s' != s ==> !error && code.Some? && code.value != "" && state.Some? && state.value != "" && cookie == state)
            && (request in s'.redeemed <==>
                  && !error && code.Some? && code.value != "" && state.Some? && state.value != "" && cookie == state
                  && exists payload :: Consume(s.memory, state.value, now).1 == Success(payload))
            && (request in s'.redeemed ==> s'.redeemed[request] == state.value)
  {
    if CallbackAccepted(code, state, cookie, error) && Consume(s.memory, state.value, now).1.Success? {
      assert Consume(s.memory, state.value, now).1 == Success(Consume(s.memory, state.value, now).1.value);
    }
  }

  /** An opened session is found, as it was stored, until its time is over. */
  lemma OpenedSessionIsFound(m: Memory<Payload>, id: string, session: Payload, ttl: real, now: real, later: real)
    requires session.Session? && OpenSession(m, id, session, ttl, now).1.Success?
    ensures var found := Fetch(OpenSession(m, id, session, ttl, now).0, id, later).1;
            if later < now + ttl then found == Success(session) else found == Failure(MissingOrExpired)
  {
  }

  /** Whatever happens in between, a callback that succeeds gets the transaction, verifier and nonce included, that a
      login made for its state, before that one's time is over. */
  lemma CallbackGetsItsLogin(steps: seq<Step>, state: string, now: real, payload: Payload)
    requires Consume(Execute(EMPTY, steps).memory, state, now).1 == Success(payload)
    ensures exists i: nat ::
              i < |steps| && steps[i].Login? && steps[i].transaction == payload && payload.state == state
              && now < steps[i].now + steps[i].ttl
  {
    var m := Execute(EMPTY, steps).memory;
    RunsStoreLogins(steps);
    ConsumeIsExact(m, state, now, payload);
    var i: nat :| StoredBy(steps, i, state, m[TransactionKey(state)]);
  }

  /** Over any interleaving of logins, callbacks, refreshes and logouts, one login transaction
      yields at most one browser session, and only a state that was issued yields one. */
  lemma OneSessionPerLogin(steps: seq<Step>, i: nat, j: nat)
    requires var sessions := Execute(EMPTY, steps).sessions;
             i < |sessions| && j < |sessions| && sessions[i].0 == sessions[j].0
    ensures i == j && Execute(EMPTY, steps).sessions[i].0 in Execute(EMPTY, steps).issued
  {
    RunsKeepOnePlace(steps);
    assert Opened(Execute(EMPTY, steps), Execute(EMPTY, steps).sessions[i].0);
  }
}
