/** The Guitarix JSON-RPC client (`GuitarixClient`): the table of pending
    call results, the request counter, the outgoing message shape, newline
    framing of the received bytes, the dispatch of incoming messages and the
    observer registry. Sockets, threads and condition variables are replaced
    by explicit events: a received chunk, the reader's exit, the end of a
    call's wait. */
module Guitarix {
  import opened Common

  /** `RESULT_BUF_SIZE`: at most this many calls may be pending. */
  const RESULT_BUF_SIZE: nat := 100

  /** A decoded JSON value. An object keeps its members in document order
      (member names are taken to be distinct). */
  datatype Value =
    | Null
    | Bool(b: bool)
    | Num(n: int)
    | Str(s: string)
    | Arr(items: seq<Value>)
    | Obj(fields: seq<(string, Value)>)

  /** `obj[key]` / `obj.get(key)` on a decoded object. */
  function Lookup(fields: seq<(string, Value)>, key: string): (r: Option<Value>)
    ensures r.Some? <==> exists i :: 0 <= i < |fields| && fields[i].0 == key
    ensures r.Some? ==> exists i :: 0 <= i < |fields| && fields[i] == (key, r.value)
  {
    if fields == [] then None
    else if fields[0].0 == key then Some(fields[0].1)
    else Lookup(fields[1..], key)
  }

  /** Python's `key in msg`: substring test on a string, element test on a
      list, member test on an object; anything else raises TypeError (None). */
  function In(key: string, msg: Value): (r: Option<bool>)
    ensures r.None? <==> !(msg.Str? || msg.Arr? || msg.Obj?)
  {
    match msg
    case Str(s) => Some(Contains(s, key))
    case Arr(xs) => Some(Str(key) in xs)
    case Obj(fs) => Some(Lookup(fs, key).Some?)
    case _ => None
  }

  /** Errors raised to the caller as `GuitarixClientError`. */
  datatype ClientError = Disconnected | TooManyPending | Timeout | SocketError

  datatype Result<T> = Ok(value: T) | Err(error: ClientError)

  /** An entry of `_results`: the waiting condition, or what replaced it. */
  datatype Slot = Pending | Resolved(value: Value) | Failed(error: ClientError)

  type ObserverId = nat

  /** The registered observers with their tokens, in registration order. */
  type Observers = seq<(ObserverId, set<string>)>

  /** A scheduled observer callback: `gx_<name>(client, *args)`. */
  datatype Event = Event(observer: ObserverId, name: string, args: seq<Value>)

  // ---------------------------------------------------------------------
  // Outgoing messages

  /** The message `_send_call` writes; a call carries an id, a notification
      does not. */
  function Request(name: string, args: seq<Value>, id: Option<string>): (msg: Value)
  {
    Obj([("jsonrpc", Str("2.0")), ("method", Str(name)), ("params", Arr(args))]
        + (if id.Some? then [("id", Str(id.value))] else []))
  }

  /** Every outgoing message has version "2.0", the method name and the
      arguments as params, and an id exactly when it is a call. */
  lemma RequestShape(name: string, args: seq<Value>, id: Option<string>)
    ensures var msg := Request(name, args, id);
      msg.Obj? &&
      Lookup(msg.fields, "jsonrpc") == Some(Str("2.0")) &&
      Lookup(msg.fields, "method") == Some(Str(name)) &&
      Lookup(msg.fields, "params") == Some(Arr(args)) &&
      (Lookup(msg.fields, "id").Some? <==> id.Some?) &&
      (id.Some? ==> Lookup(msg.fields, "id") == Some(Str(id.value)))
  {
    var fs := Request(name, args, id).fields;
    var fs1 := fs[1..];
    var fs2 := fs1[1..];
    var fs3 := fs2[1..];
    assert fs[0] == ("jsonrpc", Str("2.0")) && fs1[0] == ("method", Str(name)) && fs2[0] == ("params", Arr(args));
    assert fs3 == (if id.Some? then [("id", Str(id.value))] else []);
    assert Lookup(fs, "method") == Lookup(fs1, "method");
    assert Lookup(fs, "params") == Lookup(fs1, "params") == Lookup(fs2, "params");
    assert Lookup(fs, "id") == Lookup(fs1, "id") == Lookup(fs2, "id") == Lookup(fs3, "id");
    if id.Some? {
      assert fs3[0] == ("id", Str(id.value));
    }
  }

  /** The decimal id of the `n`-th request. */
  function RequestId(n: nat): (id: string)
    ensures |id| >= 1 && IsDigits(id)
  {
    NatToString(n)
  }

  /** Ids taken from a strictly increasing counter never repeat. */
  lemma RequestIdsDiffer(m: nat, n: nat)
    requires m < n
    ensures RequestId(m) != RequestId(n)
  {
    NatToStringInjective(m, n);
  }

  // ---------------------------------------------------------------------
  // Incoming messages

  /** What one incoming message does. */
  datatype Outcome =
    | Deliver(events: seq<Event>)       // observer callbacks scheduled
    | Resolve(id: string, value: Value) // a pending call gets its result
    | Ignore                            // only logged
    | Crash                             // an exception ends the reader

  /** `gx_<name>` scheduled for every observer, in registration order. */
  function Broadcast(observers: Observers, name: string, args: seq<Value>): (evs: seq<Event>)
    ensures |evs| == |observers|
    ensures forall i :: 0 <= i < |evs| ==> evs[i] == Event(observers[i].0, name, args)
  {
    seq(|observers|, i requires 0 <= i < |observers| => Event(observers[i].0, name, args))
  }

  /** `*msg.get("params", [])`: the unpacked arguments, or None when the
      params value is not iterable. */
  function Arguments(params: Option<Value>): (args: Option<seq<Value>>)
    ensures args.None? <==> params.Some? && !(params.value.Arr? || params.value.Str? || params.value.Obj?)
    ensures params.None? ==> args == Some([])
  {
    match params
    case None => Some([])
    case Some(Arr(xs)) => Some(xs)
    case Some(Str(s)) => Some(seq(|s|, i requires 0 <= i < |s| => Str([s[i]])))
    case Some(Obj(fs)) => Some(seq(|fs|, i requires 0 <= i < |fs| => Str(fs[i].0)))
    case Some(_) => None
  }

  /** `_handle_result` / `_handle_error` once the message is known to hold
      `member`: a missing id is logged, an unhashable id raises, an id that
      is not pending is logged. A pending result is stored; a pending error
      raises NameError, since the handler builds its exception from the
      undefined name `result`. */
  function HandleReply(results: map<string, Slot>, fields: seq<(string, Value)>, isError: bool): (r: Outcome)
    requires Lookup(fields, if isError then "error" else "result").Some?
    ensures r.Resolve? ==> !isError && r.id in results && results[r.id].Pending?
    ensures r.Deliver? == false
    ensures Lookup(fields, "id").None? ==> r == Ignore
    ensures var id := Lookup(fields, "id");
      id.Some? && (id.value.Arr? || id.value.Obj?) ==> r == Crash
    ensures var id := Lookup(fields, "id");
      id.Some? && !id.value.Str? && !id.value.Arr? && !id.value.Obj? ==> r == Ignore
    ensures var id := Lookup(fields, "id");
      id.Some? && id.value.Str? && id.value.s in results && results[id.value.s].Pending? && !isError ==>
        r == Resolve(id.value.s, Lookup(fields, "result").value)
    ensures var id := Lookup(fields, "id");
      id.Some? && id.value.Str? && id.value.s in results && results[id.value.s].Pending? && isError ==> r == Crash
    ensures var id := Lookup(fields, "id");
      id.Some? && id.value.Str? && !(id.value.s in results && results[id.value.s].Pending?) ==> r == Ignore
  {
    var id := Lookup(fields, "id");
    if id.None? then Ignore
    else
      match id.value
      case Arr(_) => Crash
      case Obj(_) => Crash
      case Str(k) =>
        if k in results && results[k].Pending? then
          if isError then Crash else Resolve(k, Lookup(fields, "result").value)
        else Ignore
      case _ => Ignore
  }

  /** `_handle_incoming_msg`: a message holding "method" goes to the
      observers, else one holding "result" resolves a call, else one holding
      "error" fails it; anything else is logged. */
  function React(results: map<string, Slot>, observers: Observers, msg: Value): (r: Outcome)
    ensures r.Resolve? ==> r.id in results && results[r.id].Pending?
    ensures r.Resolve? ==> In("method", msg) == Some(false)
  {
    var hasMethod := In("method", msg);
    if hasMethod.None? then Crash
    else if hasMethod.value then
      if !msg.Obj? then Crash
      else
        var args := Arguments(Lookup(msg.fields, "params"));
        if args.None? then Crash
        else if observers == [] then Deliver([])
        else
          match Lookup(msg.fields, "method").value
          case Str(name) => Deliver(Broadcast(observers, name, args.value))
          case _ => Crash
    else if In("result", msg).value then
      if !msg.Obj? then Crash else HandleReply(results, msg.fields, false)
    else if In("error", msg).value then
      if !msg.Obj? then Crash else HandleReply(results, msg.fields, true)
    else Ignore
  }

  /** The state the reader loop of `_run` works on: the shared result table
      and event queue, and its local `msg`. */
  datatype ReaderState = ReaderState(results: map<string, Slot>, events: seq<Event>, lastMsg: Option<Value>, alive: bool)

  /** Incoming messages never add entries and never touch an entry that is
      no longer pending; the event queue only grows; a dead reader stays
      dead. */
  ghost predicate Progresses(st: ReaderState, st': ReaderState)
  {
    st'.results.Keys == st.results.Keys &&
    (forall k :: k in st.results && !st.results[k].Pending? ==> st'.results[k] == st.results[k]) &&
    |st.events| <= |st'.events| && st'.events[..|st.events|] == st.events &&
    (!st.alive ==> st' == st)
  }

  /** One message handled by the reader. */
  function Dispatch(st: ReaderState, observers: Observers, msg: Value): (r: ReaderState)
    requires st.alive
    ensures Progresses(st, r)
    ensures r.lastMsg == Some(msg)
  {
    match React(st.results, observers, msg)
    case Deliver(evs) => st.(events := st.events + evs, lastMsg := Some(msg))
    case Resolve(k, v) => st.(results := st.results[k := Resolved(v)], lastMsg := Some(msg))
    case Ignore => st.(lastMsg := Some(msg))
    case Crash => st.(alive := false, lastMsg := Some(msg))
  }

  /** One received line: `decoded` is what `json.loads` made of it (None for
      a parse error). After a parse error the loop still handles `msg`: the
      previous line's message again, or, on the reader's first line, an
      unbound local that raises. */
  function LineStep(st: ReaderState, observers: Observers, decoded: Option<Value>): (r: ReaderState)
    ensures Progresses(st, r)
  {
    if !st.alive then st
    else
      var msg := if decoded.Some? then decoded else st.lastMsg;
      if msg.None? then st.(alive := false)
      else Dispatch(st, observers, msg.value)
  }

  /** The complete lines of one received buffer, handled in order. */
  function ProcessLines(st: ReaderState, observers: Observers, lines: seq<seq<byte>>, decode: seq<byte> -> Option<Value>): (r: ReaderState)
    ensures Progresses(st, r)
    decreases |lines|
  {
    if lines == [] then st
    else
      var before := ProcessLines(st, observers, lines[..|lines| - 1], decode);
      LineStep(before, observers, decode(lines[|lines| - 1]))
  }

  /** A result for a pending call resolves it and nothing else, whatever
      other members (such as "jsonrpc") the reply carries. */
  lemma ResultResolves(results: map<string, Slot>, observers: Observers, fs: seq<(string, Value)>, k: string, v: Value)
    requires Lookup(fs, "method").None? && Lookup(fs, "result") == Some(v) && Lookup(fs, "id") == Some(Str(k))
    requires k in results && results[k].Pending?
    ensures React(results, observers, Obj(fs)) == Resolve(k, v)
  {
  }

  /** A result or error for an id that is unknown or already answered
      changes nothing. */
  lemma StaleResultIgnored(results: map<string, Slot>, observers: Observers, fs: seq<(string, Value)>, k: string)
    requires Lookup(fs, "method").None? && (Lookup(fs, "result").Some? || Lookup(fs, "error").Some?)
    requires Lookup(fs, "id") == Some(Str(k))
    requires k !in results || !results[k].Pending?
    ensures React(results, observers, Obj(fs)) == Ignore
  {
  }

  /** An error response for a pending call raises instead of failing the
      call: the reader dies and the entry stays pending. */
  lemma ErrorResponseKillsReader(st: ReaderState, observers: Observers, fs: seq<(string, Value)>, k: string)
    requires Lookup(fs, "method").None? && Lookup(fs, "result").None? && Lookup(fs, "error").Some?
    requires Lookup(fs, "id") == Some(Str(k))
    requires st.alive && k in st.results && st.results[k].Pending?
    ensures var r := LineStep(st, observers, Some(Obj(fs)));
      !r.alive && r.results == st.results && r.results[k] == Pending
  {
  }

  /** "result" wins over "error": a reply holding both is handled as a
      result, so it never raises the handler's NameError. */
  lemma ResultBeforeError(results: map<string, Slot>, observers: Observers, fs: seq<(string, Value)>)
    requires Lookup(fs, "method").None? && Lookup(fs, "result").Some? && Lookup(fs, "error").Some?
    ensures React(results, observers, Obj(fs)) == HandleReply(results, fs, false)
    ensures React(results, observers, Obj(fs)) != Crash || Lookup(fs, "id").value.Arr? || Lookup(fs, "id").value.Obj?
  {
  }

  /** An object with none of "method", "result" and "error" is only
      logged. */
  lemma UnexpectedIgnored(results: map<string, Slot>, observers: Observers, fs: seq<(string, Value)>)
    requires Lookup(fs, "method").None? && Lookup(fs, "result").None? && Lookup(fs, "error").None?
    ensures React(results, observers, Obj(fs)) == Ignore
  {
  }

  /** A reply as the server sends it, with "jsonrpc" first, resolves the
      pending call it answers. */
  lemma ServerReplyResolves(results: map<string, Slot>, observers: Observers, k: string, v: Value)
    requires k in results && results[k].Pending?
    ensures React(results, observers, Obj([("jsonrpc", Str("2.0")), ("result", v), ("id", Str(k))])) == Resolve(k, v)
  {
    var fs := [("jsonrpc", Str("2.0")), ("result", v), ("id", Str(k))];
    assert fs[1..][1..][0] == ("id", Str(k));
    assert Lookup(fs, "method") == None;
    assert Lookup(fs, "result") == Some(v);
    assert Lookup(fs, "id") == Some(Str(k));
    ResultResolves(results, observers, fs, k, v);
  }

  /** "method" wins over "result": a message holding both is a notification
      and resolves nothing. */
  lemma MethodFirst(results: map<string, Slot>, observers: Observers, fields: seq<(string, Value)>)
    requires Lookup(fields, "method").Some? && Lookup(fields, "result").Some?
    ensures !React(results, observers, Obj(fields)).Resolve?
  {
  }

  /** Every request this client sends would be taken for a notification by
      the same dispatch: it names a method. */
  lemma RequestIsMethodMessage(results: map<string, Slot>, observers: Observers, name: string, args: seq<Value>, id: Option<string>)
    ensures React(results, observers, Request(name, args, id))
      == Deliver(if observers == [] then [] else Broadcast(observers, name, args))
  {
    RequestShape(name, args, id);
  }

  /** A line that does not parse makes the reader handle the previous
      message a second time. */
  lemma ParseErrorRepeatsMessage(st: ReaderState, observers: Observers, msg: Value)
    requires st.alive
    requires React(st.results, observers, msg).Deliver?
    ensures var once := LineStep(st, observers, Some(msg));
      var twice := LineStep(once, observers, None);
      twice.events == st.events + React(st.results, observers, msg).events + React(st.results, observers, msg).events
  {
  }

  /** A line that does not parse, before any line has parsed, ends the
      reader. */
  lemma FirstParseErrorKillsReader(st: ReaderState, observers: Observers)
    requires st.lastMsg.None?
    ensures !LineStep(st, observers, None).alive
  {
  }

  /** The `for` loop of `_run` over the complete lines; it stops at the
      first exception. */
  method HandleLines(st0: ReaderState, observers: Observers, lines: seq<seq<byte>>, decode: seq<byte> -> Option<Value>)
    returns (st: ReaderState)
    requires st0.alive
    ensures st == ProcessLines(st0, observers, lines, decode)
  {
    st := st0;
    var i := 0;
    while i < |lines| && st.alive
      invariant 0 <= i <= |lines|
      invariant st == ProcessLines(st0, observers, lines[..i], decode)
    {
      assert lines[..i + 1][..i] == lines[..i];
      st := LineStep(st, observers, decode(lines[i]));
      i := i + 1;
    }
    ProcessLinesAppend(st0, observers, lines[..i], lines[i..], decode);
    assert lines[..i] + lines[i..] == lines;
  }

  /** Splitting `lines` anywhere and processing the two parts in turn is the
      same as processing them at once. */
  lemma {:induction false} ProcessLinesAppend(st: ReaderState, observers: Observers, a: seq<seq<byte>>, b: seq<seq<byte>>, decode: seq<byte> -> Option<Value>)
    ensures ProcessLines(st, observers, a + b, decode) == ProcessLines(ProcessLines(st, observers, a, decode), observers, b, decode)
    decreases |b|
  {
    if b == [] {
      assert a + b == a;
    } else {
      assert (a + b)[..|a + b| - 1] == a + b[..|b| - 1];
      ProcessLinesAppend(st, observers, a, b[..|b| - 1], decode);
    }
  }

  // ---------------------------------------------------------------------
  // Observers and disconnection

  /** How `add_observer` was given its tokens. */
  datatype Tokens = TokenString(s: string) | TokenList(items: seq<string>) | NoTokens

  /** A string is one token, an iterable a set of tokens, None none. */
  function Normalize(tokens: Tokens): (r: set<string>)
    ensures tokens.TokenString? ==> r == {tokens.s}
    ensures tokens.TokenList? ==> forall t :: t in r <==> t in tokens.items
    ensures r == {} <==> tokens.NoTokens? || (tokens.TokenList? && tokens.items == [])
  {
    match tokens
    case TokenString(s) => {s}
    case TokenList(items) =>
      var r := set t | t in items;
      assert items != [] ==> items[0] in r;
      r
    case NoTokens => {}
  }

  /** The tokens an observer is registered with, if it is registered. */
  function TokensOf(observers: Observers, obs: ObserverId): Option<set<string>>
  {
    if observers == [] then None
    else if observers[0].0 == obs then Some(observers[0].1)
    else TokensOf(observers[1..], obs)
  }

  ghost predicate DistinctObservers(observers: Observers)
  {
    forall i, j :: 0 <= i < j < |observers| ==> observers[i].0 != observers[j].0
  }

  /** The registry after `add_observer`: a new observer is appended with
      its tokens, a known one has the tokens added to its set. */
  function Register(observers: Observers, obs: ObserverId, tokens: set<string>): (r: Observers)
    ensures TokensOf(r, obs) == Some((if TokensOf(observers, obs).Some? then TokensOf(observers, obs).value else {}) + tokens)
    ensures forall o :: o != obs ==> TokensOf(r, o) == TokensOf(observers, o)
    ensures |r| == |observers| + (if TokensOf(observers, obs).Some? then 0 else 1)
    ensures forall i :: 0 <= i < |observers| ==> r[i].0 == observers[i].0
    ensures forall i :: |observers| <= i < |r| ==> r[i].0 == obs
  {
    if observers == [] then
      assert {} + tokens == tokens;
      [(obs, tokens)]
    else if observers[0].0 == obs then [(obs, observers[0].1 + tokens)] + observers[1..]
    else
      var rest := Register(observers[1..], obs, tokens);
      [observers[0]] + rest
  }

  /** Registering keeps the observers distinct. */
  lemma RegisterKeepsDistinct(observers: Observers, obs: ObserverId, tokens: set<string>)
    requires DistinctObservers(observers)
    ensures DistinctObservers(Register(observers, obs, tokens))
  {
    var r := Register(observers, obs, tokens);
    if |r| > |observers| {
      TokensOfAbsent(observers, obs);
    }
  }

  /** An observer that is not registered has no entry among them. */
  lemma {:induction false} TokensOfAbsent(observers: Observers, obs: ObserverId)
    ensures TokensOf(observers, obs).None? <==> forall i :: 0 <= i < |observers| ==> observers[i].0 != obs
  {
    if observers != [] {
      TokensOfAbsent(observers[1..], obs);
      assert forall i :: 1 <= i < |observers| ==> observers[i] == observers[1..][i - 1];
    }
  }

  /** The token sets `connect` subscribes to: those of every observer that
      has any, in registration order. */
  function Listens(observers: Observers): (r: seq<set<string>>)
    ensures |r| <= |observers|
    ensures forall i :: 0 <= i < |r| ==> r[i] != {}
  {
    if observers == [] then []
    else
      var last := observers[|observers| - 1];
      Listens(observers[..|observers| - 1]) + (if last.1 != {} then [last.1] else [])
  }

  /** Subscriptions follow registration order: those of a registry split
      in two are those of the first part, then those of the second. */
  lemma {:induction false} ListensAppend(a: Observers, b: Observers)
    ensures Listens(a + b) == Listens(a) + Listens(b)
    decreases |b|
  {
    if b == [] {
      assert a + b == a;
    } else {
      var ab := a + b;
      assert ab[..|ab| - 1] == a + b[..|b| - 1];
      assert ab[|ab| - 1] == b[|b| - 1];
      ListensAppend(a, b[..|b| - 1]);
    }
  }

  /** Every observer with tokens has its set subscribed to, and nothing
      else is. */
  lemma {:induction false} ListensCovers(observers: Observers)
    ensures forall i :: 0 <= i < |observers| && observers[i].1 != {} ==> observers[i].1 in Listens(observers)
    ensures forall j :: 0 <= j < |Listens(observers)| ==>
      exists i :: 0 <= i < |observers| && Listens(observers)[j] == observers[i].1
    decreases |observers|
  {
    if observers != [] {
      var init := observers[..|observers| - 1];
      var last := observers[|observers| - 1];
      ListensCovers(init);
      var r := Listens(observers);
      assert r == Listens(init) + (if last.1 != {} then [last.1] else []);
      forall j | 0 <= j < |r|
        ensures exists i :: 0 <= i < |observers| && r[j] == observers[i].1
      {
        if j < |Listens(init)| {
          var i :| 0 <= i < |init| && Listens(init)[j] == init[i].1;
          assert r[j] == observers[i].1;
        } else {
          assert r[j] == observers[|observers| - 1].1;
        }
      }
    } else {
      assert Listens(observers) == [];
    }
  }

  function FailSlot(s: Slot): Slot
  {
    if s.Pending? then Failed(Disconnected) else s
  }

  /** `_disconnect` on the result table: every waiting call fails with
      "Disconnected"; answered entries stay as they are. */
  function FailPending(results: map<string, Slot>): (r: map<string, Slot>)
    ensures r.Keys == results.Keys
    ensures forall k :: k in r ==> !r[k].Pending?
    ensures forall k :: k in r ==> r[k] == (if results[k].Pending? then Failed(Disconnected) else results[k])
  {
    map k | k in results :: FailSlot(results[k])
  }

  /** Once disconnected, no late result can resolve anything. */
  lemma NoResolveAfterDisconnect(results: map<string, Slot>, observers: Observers, msg: Value)
    ensures !React(FailPending(results), observers, msg).Resolve?
  {
  }

  /** Disconnecting twice is disconnecting once. */
  lemma FailPendingIdempotent(results: map<string, Slot>)
    ensures FailPending(FailPending(results)) == FailPending(results)
  {
    assert forall k :: k in results ==> FailSlot(FailSlot(results[k])) == FailSlot(results[k]);
  }

  // ---------------------------------------------------------------------
  // The client

  class Client {
    /** `_req_id`: the id of the latest call. */
    var reqId: nat
    /** The random starting value of `_req_id`. */
    const firstId: nat
    /** `_results`: the entries of the calls in progress. */
    var results: map<string, Slot>
    /** `_observers`. */
    var observers: Observers
    /** Whether `_socket` / `_thread` are set. */
    var socket: bool
    var thread: bool
    /** Messages written to the socket. */
    var sent: seq<Value>
    /** Token sets passed to the server's `listen`. */
    var subscriptions: seq<set<string>>
    /** Observer callbacks scheduled on the main loop. */
    var events: seq<Event>
    /** The reader's `data` (bytes after the last newline) and `msg`. */
    var buffer: seq<byte>
    var lastMsg: Option<Value>

    ghost predicate Valid()
      reads this
    {
      Bookkeeping(results.Keys, firstId, reqId) && DistinctObservers(observers)
    }

    /** `connected()`: both a socket and a reader. */
    predicate Connected()
      reads this
    {
      socket && thread
    }

    /** The counter starts at a random value; here it is a parameter. */
    constructor (initialId: nat)
      ensures Valid() && !Connected()
      ensures reqId == initialId && results == map[] && observers == []
      ensures sent == [] && subscriptions == [] && events == []
    {
      reqId := initialId;
      firstId := initialId;
      results := map[];
      observers := [];
      socket := false;
      thread := false;
      sent := [];
      subscriptions := [];
      events := [];
      buffer := [];
      lastMsg := None;
    }

    /** `_call_observers`. */
    method CallObservers(name: string, args: seq<Value>)
      modifies this
      ensures events == old(events) + Broadcast(observers, name, args)
      ensures reqId == old(reqId) && results == old(results) && observers == old(observers)
      ensures socket == old(socket) && thread == old(thread) && sent == old(sent)
      ensures subscriptions == old(subscriptions) && buffer == old(buffer) && lastMsg == old(lastMsg)
    {
      var i := 0;
      while i < |observers|
        invariant 0 <= i <= |observers|
        invariant events == old(events) + Broadcast(observers[..i], name, args)
        invariant reqId == old(reqId) && results == old(results) && observers == old(observers)
        invariant socket == old(socket) && thread == old(thread) && sent == old(sent)
        invariant subscriptions == old(subscriptions) && buffer == old(buffer) && lastMsg == old(lastMsg)
      {
        assert Broadcast(observers[..i + 1], name, args) == Broadcast(observers[..i], name, args) + [Event(observers[i].0, name, args)];
        events := events + [Event(observers[i].0, name, args)];
        i := i + 1;
      }
      assert observers[..i] == observers;
    }

    /** The subscriptions `connect` makes: `listen` with the tokens of
        every observer that has some. */
    method ListenAll()
      modifies this
      ensures subscriptions == old(subscriptions) + Listens(observers)
      ensures reqId == old(reqId) && results == old(results) && observers == old(observers)
      ensures socket == old(socket) && thread == old(thread) && sent == old(sent)
      ensures events == old(events) && buffer == old(buffer) && lastMsg == old(lastMsg)
    {
      var i := 0;
      while i < |observers|
        invariant 0 <= i <= |observers|
        invariant subscriptions == old(subscriptions) + Listens(observers[..i])
        invariant reqId == old(reqId) && results == old(results) && observers == old(observers)
        invariant socket == old(socket) && thread == old(thread) && sent == old(sent)
        invariant events == old(events) && buffer == old(buffer) && lastMsg == old(lastMsg)
      {
        assert observers[..i + 1][..i] == observers[..i];
        if observers[i].1 != {} {
          subscriptions := subscriptions + [observers[i].1];
        }
        i := i + 1;
      }
      assert observers[..i] == observers;
    }

    /** `add_observer`: register the tokens; when connected, subscribe to
        the new tokens and tell the observer it is connected. */
    method AddObserver(obs: ObserverId, tokens: Tokens)
      requires Valid()
      modifies this
      ensures Valid()
      ensures observers == Register(old(observers), obs, Normalize(tokens))
      ensures old(Connected()) ==> (
        subscriptions == old(subscriptions) + (if Normalize(tokens) == {} then [] else [Normalize(tokens)]) &&
        events == old(events) + [Event(obs, "connected", [])])
      ensures !old(Connected()) ==> subscriptions == old(subscriptions) && events == old(events)
      ensures reqId == old(reqId) && results == old(results) && socket == old(socket) && thread == old(thread)
      ensures sent == old(sent) && buffer == old(buffer) && lastMsg == old(lastMsg)
    {
      var toks := Normalize(tokens);
      RegisterKeepsDistinct(observers, obs, toks);
      observers := Register(observers, obs, toks);
      if Connected() {
        if toks != {} {
          subscriptions := subscriptions + [toks];
        }
        events := events + [Event(obs, "connected", [])];
      }
    }

    /** `_disconnect`: drop the socket, fail every waiting call and tell the
        observers. The reader thread is not cleared here. */
    method Disconnect()
      requires Valid()
      modifies this
      ensures Valid()
      ensures !socket && thread == old(thread)
      ensures results == FailPending(old(results))
      ensures events == old(events) + Broadcast(observers, "disconnected", [])
      ensures reqId == old(reqId) && observers == old(observers) && sent == old(sent)
      ensures subscriptions == old(subscriptions) && buffer == old(buffer) && lastMsg == old(lastMsg)
    {
      socket := false;
      var keys := results.Keys;
      ghost var results0 := results;
      while keys != {}
        invariant keys <= results0.Keys && results.Keys == results0.Keys
        invariant forall k :: k in results ==> results[k] == (if k in keys then results0[k] else FailSlot(results0[k]))
        invariant !socket
        invariant reqId == old(reqId) && observers == old(observers) && sent == old(sent) && thread == old(thread)
        invariant events == old(events) && subscriptions == old(subscriptions) && buffer == old(buffer) && lastMsg == old(lastMsg)
        decreases keys
      {
        var k :| k in keys;
        if results[k].Pending? {
          results := results[k := Failed(Disconnected)];
        }
        keys := keys - {k};
      }
      assert results == FailPending(results0) && results.Keys == results0.Keys;
      CallObservers("disconnected", []);
    }

    /** `connect`: nothing when connected; a half-open connection is torn
        down first. `ok` is whether the socket connects. A new reader starts
        with an empty buffer; the observers' tokens are subscribed to and
        every observer is told it is connected. */
    method Connect(ok: bool) returns (failed: bool)
      requires Valid()
      modifies this
      ensures Valid()
      ensures old(Connected()) ==> !failed && results == old(results) && events == old(events) && subscriptions == old(subscriptions)
      ensures !old(Connected()) ==> failed == !ok
      ensures !old(Connected()) ==> results == (if old(socket) || old(thread) then FailPending(old(results)) else old(results))
      ensures !old(Connected()) ==>
        var torn := if old(socket) || old(thread) then Broadcast(observers, "disconnected", []) else [];
        if ok then Connected() && buffer == [] && lastMsg == None &&
          subscriptions == old(subscriptions) + Listens(observers) &&
          events == old(events) + torn + Broadcast(observers, "connected", [])
        else !socket && thread == old(thread) && subscriptions == old(subscriptions) && events == old(events) + torn
      ensures reqId == old(reqId) && observers == old(observers) && sent == old(sent)
    {
      if socket && thread {
        return false;
      } else if socket || thread {
        Disconnect();
      }
      if !ok {
        return true;
      }
      socket := true;
      thread := true;
      buffer := [];
      lastMsg := None;
      ListenAll();
      CallObservers("connected", []);
      return false;
    }

    /** `_send_call`: refuse without a socket; otherwise write the
        request. `sendOk` is whether the socket accepts the bytes. */
    method SendCall(name: string, args: seq<Value>, id: Option<string>, sendOk: bool) returns (err: Option<ClientError>)
      modifies this
      ensures !old(socket) ==> err == Some(Disconnected) && sent == old(sent)
      ensures old(socket) && !sendOk ==> err == Some(SocketError) && sent == old(sent)
      ensures old(socket) && sendOk ==> err == None && sent == old(sent) + [Request(name, args, id)]
      ensures reqId == old(reqId) && results == old(results) && observers == old(observers) && socket == old(socket)
      ensures thread == old(thread) && subscriptions == old(subscriptions) && events == old(events)
      ensures buffer == old(buffer) && lastMsg == old(lastMsg)
    {
      if !socket {
        return Some(Disconnected);
      }
      if !sendOk {
        return Some(SocketError);
      }
      sent := sent + [Request(name, args, id)];
      return None;
    }

    /** `notify`: a request without an id. */
    method Notify(name: string, args: seq<Value>, sendOk: bool) returns (err: Option<ClientError>)
      modifies this
      ensures !old(socket) ==> err == Some(Disconnected) && sent == old(sent)
      ensures old(socket) && !sendOk ==> err == Some(SocketError) && sent == old(sent)
      ensures old(socket) && sendOk ==> err == None && sent == old(sent) + [Request(name, args, None)]
      ensures reqId == old(reqId) && results == old(results) && observers == old(observers) && socket == old(socket)
      ensures thread == old(thread) && subscriptions == old(subscriptions) && events == old(events)
      ensures buffer == old(buffer) && lastMsg == old(lastMsg)
    {
      err := SendCall(name, args, None, sendOk);
    }

    /** The first half of `call`, up to the wait: refuse when 100 calls are
        pending; otherwise take the next id, add a pending entry and send
        the request. When sending fails the entry is removed again. */
    method BeginCall(name: string, args: seq<Value>, sendOk: bool) returns (r: Result<string>)
      requires Valid()
      modifies this
      ensures Valid()
      ensures |old(results)| >= RESULT_BUF_SIZE ==> r == Err(TooManyPending) && reqId == old(reqId) && results == old(results) && sent == old(sent)
      ensures |old(results)| < RESULT_BUF_SIZE ==> reqId == old(reqId) + 1
      ensures |old(results)| < RESULT_BUF_SIZE && !old(socket) ==> r == Err(Disconnected) && results == old(results) && sent == old(sent)
      ensures |old(results)| < RESULT_BUF_SIZE && old(socket) && !sendOk ==> r == Err(SocketError) && results == old(results) && sent == old(sent)
      ensures |old(results)| < RESULT_BUF_SIZE && old(socket) && sendOk ==>
        r == Ok(RequestId(reqId)) && RequestId(reqId) !in old(results) &&
        results == old(results)[RequestId(reqId) := Pending] &&
        sent == old(sent) + [Request(name, args, Some(RequestId(reqId)))]
      ensures observers == old(observers) && socket == old(socket) && thread == old(thread)
      ensures subscriptions == old(subscriptions) && events == old(events) && buffer == old(buffer) && lastMsg == old(lastMsg)
    {
      if |results| >= RESULT_BUF_SIZE {
        return Err(TooManyPending);
      }
      var id := RequestId(reqId + 1);
      TakeId(results, firstId, reqId);
      ghost var results0 := results;
      reqId, results := reqId + 1, results[id := Pending];
      var err := SendCall(name, args, Some(id), sendOk);
      if err.Some? {
        assert results - {id} == results0;
        results := results - {id};
        return Err(err.value);
      }
      return Ok(id);
    }

    /** The rest of `call`, once the wait ends: the entry is removed, and
        the call returns the value, raises the stored error, or times out if
        nothing arrived. */
    method FinishCall(id: string) returns (r: Result<Value>)
      requires Valid() && id in results
      modifies this
      ensures Valid()
      ensures results == old(results) - {id}
      ensures old(results)[id].Resolved? ==> r == Ok(old(results)[id].value)
      ensures old(results)[id].Failed? ==> r == Err(old(results)[id].error)
      ensures old(results)[id].Pending? ==> r == Err(Timeout)
      ensures reqId == old(reqId) && observers == old(observers) && socket == old(socket) && thread == old(thread)
      ensures sent == old(sent) && subscriptions == old(subscriptions) && events == old(events)
      ensures buffer == old(buffer) && lastMsg == old(lastMsg)
    {
      var slot := results[id];
      results := results - {id};
      match slot
      case Resolved(v) => r := Ok(v);
      case Failed(e) => r := Err(e);
      case Pending => r := Err(Timeout);
    }

    /** One chunk read by `_run`: append it to the buffer, handle every
        complete line in order and keep the partial line. When handling a
        line raises, the reader ends (the socket stays open). */
    method ReaderReceive(chunk: seq<byte>, decode: seq<byte> -> Option<Value>)
      requires Valid() && socket && thread && |chunk| > 0
      modifies this
      ensures Valid()
      ensures var data := old(buffer) + chunk;
        var st := ProcessLines(ReaderState(old(results), old(events), old(lastMsg), true), observers, CompleteLines(data, NEWLINE), decode);
        results == st.results && events == st.events &&
        (st.alive ==> thread && buffer == PartialLine(data, NEWLINE) && lastMsg == st.lastMsg) &&
        (!st.alive ==> !thread && buffer == [] && lastMsg == None)
      ensures reqId == old(reqId) && observers == old(observers) && socket == old(socket)
      ensures sent == old(sent) && subscriptions == old(subscriptions)
    {
      var data := buffer + chunk;
      if NEWLINE !in data {
        SplitWithoutSeparator(data, NEWLINE);
        assert CompleteLines(data, NEWLINE) == [] && PartialLine(data, NEWLINE) == data;
        assert ProcessLines(ReaderState(results, events, lastMsg, true), observers, [], decode) == ReaderState(results, events, lastMsg, true);
        buffer := data;
        return;
      }
      ReceiveLines(data, decode);
    }

    /** The part of `_run` that runs when `data` holds a newline: handle
        the complete lines, then keep the partial line, or stop if handling
        raised. */
    method ReceiveLines(data: seq<byte>, decode: seq<byte> -> Option<Value>)
      requires Valid() && thread && NEWLINE in data
      modifies this
      ensures Valid()
      ensures var st := ProcessLines(ReaderState(old(results), old(events), old(lastMsg), true), observers, CompleteLines(data, NEWLINE), decode);
        results == st.results && events == st.events &&
        (st.alive ==> thread && buffer == PartialLine(data, NEWLINE) && lastMsg == st.lastMsg) &&
        (!st.alive ==> !thread && buffer == [] && lastMsg == None)
      ensures reqId == old(reqId) && observers == old(observers) && socket == old(socket)
      ensures sent == old(sent) && subscriptions == old(subscriptions)
    {
      var lines := Split(data, NEWLINE);
      var st := HandleLines(ReaderState(results, events, lastMsg, true), observers, lines[..|lines| - 1], decode);
      assert lines[..|lines| - 1] == CompleteLines(data, NEWLINE);
      assert st.results.Keys == results.Keys;
      if st.alive {
        results, events, buffer, lastMsg := st.results, st.events, lines[|lines| - 1], st.lastMsg;
      } else {
        results, events, thread, buffer, lastMsg := st.results, st.events, false, [], None;
      }
      assert Bookkeeping(results.Keys, firstId, reqId);
    }

    /** The reader stops (end of file, a socket error, or the socket
        cleared): it calls `disconnect()` and then clears `_thread`. */
    method ReaderExit()
      requires Valid() && thread
      modifies this
      ensures Valid() && !socket && !thread
      ensures results == FailPending(old(results))
      ensures events == old(events) + Broadcast(observers, "disconnected", [])
      ensures reqId == old(reqId) && observers == old(observers) && sent == old(sent) && subscriptions == old(subscriptions)
    {
      Disconnect();
      thread := false;
      buffer := [];
      lastMsg := None;
    }
  }

  /** The pending ids were all issued since the counter started, and there
      are at most `RESULT_BUF_SIZE` of them. */
  ghost predicate Bookkeeping(ids: set<string>, firstId: nat, reqId: nat)
  {
    firstId <= reqId && Issued(ids, firstId, reqId) && |ids| <= RESULT_BUF_SIZE
  }

  ghost predicate Issued(ids: set<string>, firstId: nat, reqId: nat)
  {
    forall k :: k in ids ==> exists j: nat :: firstId < j <= reqId && k == RequestId(j)
  }

  lemma FreshId(results: map<string, Slot>, firstId: nat, reqId: nat)
    requires firstId <= reqId && Issued(results.Keys, firstId, reqId)
    ensures RequestId(reqId + 1) !in results
    ensures Issued(results.Keys + {RequestId(reqId + 1)}, firstId, reqId + 1)
  {
    if RequestId(reqId + 1) in results {
      var j: nat :| firstId < j <= reqId && RequestId(reqId + 1) == RequestId(j);
      RequestIdsDiffer(j, reqId + 1);
    }
    forall k | k in results || k == RequestId(reqId + 1)
      ensures exists j: nat :: firstId < j <= reqId + 1 && k == RequestId(j)
    {
      if k == RequestId(reqId + 1) {
        assert firstId < reqId + 1 <= reqId + 1 && k == RequestId(reqId + 1);
      } else {
        var j: nat :| firstId < j <= reqId && k == RequestId(j);
        assert firstId < j <= reqId + 1 && k == RequestId(j);
      }
    }
  }

  /** Taking the next id while fewer than `RESULT_BUF_SIZE` calls are
      pending: the id is new, and the table with or without its entry is
      still within bounds and made of issued ids. */
  lemma TakeId(results: map<string, Slot>, firstId: nat, reqId: nat)
    requires firstId <= reqId && Issued(results.Keys, firstId, reqId)
    requires |results| < RESULT_BUF_SIZE
    ensures RequestId(reqId + 1) !in results
    ensures Issued(results.Keys, firstId, reqId + 1)
    ensures Issued(results[RequestId(reqId + 1) := Pending].Keys, firstId, reqId + 1)
    ensures |results[RequestId(reqId + 1) := Pending].Keys| <= RESULT_BUF_SIZE
  {
    FreshId(results, firstId, reqId);
    assert results[RequestId(reqId + 1) := Pending].Keys == results.Keys + {RequestId(reqId + 1)};
  }
}
