/**
 * worker.js: one store shared by asynchronous message handlers. A handler gives way at every
 * `await`, so what it does is told in segments between which others may run.
 */
module OxigraphWorker {

  import opened Json

  /** The triples of an Oxigraph store. */
  type Store = set<string>

  datatype Result<+T> = Ok(value: T) | Err(error: string)

  datatype QueryKind = UpdateQuery | ReadQuery | OtherQuery

  /** Oxigraph itself. A load or update that throws may have changed the store before. */
  datatype Oxigraph = Oxigraph(
    load: (Store, string) -> (Store, Option<string>),
    update: (Store, string) -> (Store, Option<string>),
    query: (Store, string) -> Result<string>,
    dump: (Store, string) -> Result<string>,
    details: string -> Result<QueryKind>)

  datatype Instruction =
    | Init(wasmPath: string)
    | Load(triples: string)
    | Query(query: string)
    | Dump(mimetype: string)
    | OtherTask

  /** `origin` numbers the call that sent the message; no program reads it. */
  datatype Message = Message(taskID: string, origin: nat, instruction: Instruction)

  datatype Answer =
    | Empty
    | Initialized
    | Loaded(added: int, size: nat)
    | NoStore
    | UnknownQuery
    | Updated(difference: int)
    | Results(data: string)
    | Dumped(text: string)

  datatype Reply = Reply(taskID: string, origin: nat, answer: Answer, error: Option<string>)

  /** Where a handler waits: for the wasm file, for a load, or with its reply to post. */
  datatype Handler =
    | Fetching(message: Message)
    | Loading(message: Message, before: nat, error: Option<string>)
    | Ready(reply: Reply)
  {
    function Origin(): nat
    {
      if Ready? then reply.origin else message.origin
    }
  }

  function Answered(m: Message, answer: Answer): Handler
  {
    Ready(Reply(m.taskID, m.origin, answer, None))
  }

  /** `result.error = err`; the message stays empty. */
  function Failed(m: Message, error: string): Handler
  {
    Ready(Reply(m.taskID, m.origin, Empty, Some(error)))
  }

  function Created(store: Option<Store>): Option<Store>
  {
    if store.None? then Some({}) else store
  }

  function Queried(ox: Oxigraph, store: Store, m: Message, text: string): (Store, Handler)
  {
    match ox.details(text)
    case Err(e) => (store, Failed(m, e))
    case Ok(UpdateQuery) =>
      var (after, error) := ox.update(store, text);
      (after, if error.Some? then Failed(m, "Update query failed: " + error.value)
              else Answered(m, Updated(|after| - |store|)))
    case Ok(ReadQuery) =>
      (store, match ox.query(store, text)
              case Err(e) => Failed(m, "Query failed: " + e)
              case Ok(data) => Answered(m, Results(data)))
    case Ok(OtherQuery) => (store, Answered(m, UnknownQuery))
  }

  /** A handler up to its first `await`; `thrown` is what creating a store would throw, if it did. */
  function Received(ox: Oxigraph, store: Option<Store>, m: Message, thrown: Option<string>): (Option<Store>, Handler)
  {
    match m.instruction
    case Init(_) => (store, Fetching(m))
    case Load(triples) =>
      if store.None? && thrown.Some? then (store, Failed(m, thrown.value))
      else
        var known := Created(store).value;
        var (after, error) := ox.load(known, triples);
        (Some(after), Loading(m, |known|, error))
    case Query(text) =>
      if store.None? then (store, Answered(m, NoStore))
      else
        var (after, h) := Queried(ox, store.value, m, text);
        (Some(after), h)
    case Dump(mimetype) =>
      if store.None? then (store, Answered(m, NoStore))
      else
        (store, match ox.dump(store.value, mimetype)
                case Err(e) => Failed(m, e)
                case Ok(text) => Answered(m, Dumped(text)))
    case OtherTask => (store, Answered(m, Empty))
  }

  /** The segment after the `await`; `fetched` is what instantiating the wasm file threw, if it did. */
  function Resumed(store: Option<Store>, h: Handler, fetched: Option<string>): (Option<Store>, Handler)
  {
    match h
    case Fetching(m) =>
      if fetched.Some? then (store, Failed(m, "Instantiation of Oxigraph failed: " + fetched.value))
      else (Created(store), Answered(m, Initialized))
    case Loading(m, before, error) =>
      var size := |Created(store).value|;
      (store, if error.Some? then Failed(m, "Loading failed: " + error.value)
              else Answered(m, Loaded(size - before, size)))
    case Ready(_) => (store, h)
  }

  /** The global `store`, changed by the handlers in place. */
  class Worker {
    var store: Option<Store>

    constructor ()
      ensures store == None
    {
      store := None;
    }

    method OnMessage(ox: Oxigraph, m: Message, thrown: Option<string>) returns (h: Handler)
      modifies this
      ensures (store, h) == Received(ox, old(store), m, thrown)
      ensures old(store).Some? ==> store.Some?
    {
      match m.instruction
      case Init(_) =>
        h := Fetching(m);
      case Load(triples) =>
        if store.None? {
          if thrown.Some? {
            return Failed(m, thrown.value);
          }
          store := Some({});
        }
        var s1 := |store.value|;
        var (after, error) := ox.load(store.value, triples);
        store := Some(after);
        h := Loading(m, s1, error);
      case Query(text) =>
        if store.None? {
          return Answered(m, NoStore);
        }
        h := RunQuery(ox, m, text);
      case Dump(mimetype) =>
        if store.None? {
          return Answered(m, NoStore);
        }
        match ox.dump(store.value, mimetype) {
          case Err(e) => h := Failed(m, e);
          case Ok(text) => h := Answered(m, Dumped(text));
        }
      case OtherTask =>
        h := Answered(m, Empty);
    }

    method RunQuery(ox: Oxigraph, m: Message, text: string) returns (h: Handler)
      requires store.Some?
      modifies this
      ensures store.Some? && (store.value, h) == Queried(ox, old(store).value, m, text)
    {
      match ox.details(text)
      case Err(e) =>
        h := Failed(m, e);
      case Ok(UpdateQuery) =>
        var s1 := |store.value|;
        var (after, error) := ox.update(store.value, text);
        store := Some(after);
        if error.Some? {
          return Failed(m, "Update query failed: " + error.value);
        }
        var s2 := |store.value|;
        h := Answered(m, Updated(s2 - s1));
      case Ok(ReadQuery) =>
        match ox.query(store.value, text) {
          case Err(e) => h := Failed(m, "Query failed: " + e);
          case Ok(data) => h := Answered(m, Results(data));
        }
      case Ok(OtherQuery) =>
        h := Answered(m, UnknownQuery);
    }

    method Resume(h: Handler, fetched: Option<string>) returns (next: Handler)
      requires h.Loading? ==> store.Some?
      modifies this
      ensures (store, next) == Resumed(old(store), h, fetched)
      ensures old(store).Some? ==> store == old(store)
    {
      match h
      case Fetching(m) =>
        if fetched.Some? {
          return Failed(m, "Instantiation of Oxigraph failed: " + fetched.value);
        }
        if store.None? {
          store := Some({});
        }
        next := Answered(m, Initialized);
      case Loading(m, before, error) =>
        if error.Some? {
          return Failed(m, "Loading failed: " + error.value);
        }
        var s2 := |store.value|;
        next := Answered(m, Loaded(s2 - before, s2));
      case Ready(_) =>
        next := h;
    }
  }

  // ----- a message that is handled alone -----

  /** Both segments of a handler, with nothing in between. */
  function Alone(ox: Oxigraph, store: Option<Store>, m: Message, thrown: Option<string>, fetched: Option<string>)
    : (Option<Store>, Handler)
  {
    var (between, h) := Received(ox, store, m, thrown);
    Resumed(between, h, fetched)
  }

  /** The reply of a handler that has ended, without and with an error. */
  predicate Answers(h: Handler, m: Message, answer: Answer)
  {
    h == Ready(Reply(m.taskID, m.origin, answer, None))
  }

  predicate Fails(h: Handler, m: Message, error: string)
  {
    h == Ready(Reply(m.taskID, m.origin, Empty, Some(error)))
  }

  /** INIT makes an empty store if there is none, and keeps the one there is. */
  lemma InitAlone(ox: Oxigraph, store: Option<Store>, m: Message, thrown: Option<string>, fetched: Option<string>)
    requires m.instruction.Init?
    ensures var (after, h) := Alone(ox, store, m, thrown, fetched);
      && (fetched.Some? ==> after == store && Fails(h, m, "Instantiation of Oxigraph failed: " + fetched.value))
      && (fetched.None? ==> Answers(h, m, Initialized) && after.Some? && after.value == if store.Some? then store.value else {})
  {
  }

  /** LOAD tells by how much the store grew and how large it is, and keeps what was loaded before a failure. */
  lemma LoadAlone(ox: Oxigraph, store: Option<Store>, m: Message, thrown: Option<string>, fetched: Option<string>)
    requires m.instruction.Load? && (store.Some? || thrown.None?)
    ensures var before := if store.Some? then store.value else {};
      var (loaded, error) := ox.load(before, m.instruction.triples);
      var (after, h) := Alone(ox, store, m, thrown, fetched);
      && after == Some(loaded)
      && (error.Some? ==> Fails(h, m, "Loading failed: " + error.value))
      && (error.None? ==> Answers(h, m, Loaded(|loaded| - |before|, |loaded|)))
  {
  }

  /** The count is taken when the load is done: what other handlers add meanwhile is counted in. */
  lemma LoadInterrupted(m: Message, before: nat, store: Store, fetched: Option<string>)
    ensures var (after, h) := Resumed(Some(store), Loading(m, before, None), fetched);
      after == Some(store) && Answers(h, m, Loaded(|store| - before, |store|))
  {
  }

  /** QUERY reads or updates the store there is, and passes on what Oxigraph gives. */
  lemma QueryAlone(ox: Oxigraph, store: Store, m: Message, thrown: Option<string>, fetched: Option<string>)
    requires m.instruction.Query?
    ensures var text := m.instruction.query;
      var (after, h) := Alone(ox, Some(store), m, thrown, fetched);
      && (ox.details(text).Err? ==> after == Some(store) && Fails(h, m, ox.details(text).error))
      && (ox.details(text) == Ok(ReadQuery) ==>
            var results := ox.query(store, text);
            && after == Some(store)
            && (results.Ok? ==> Answers(h, m, Results(results.value)))
            && (results.Err? ==> Fails(h, m, "Query failed: " + results.error)))
      && (ox.details(text) == Ok(UpdateQuery) ==>
            var (updated, error) := ox.update(store, text);
            && after == Some(updated)
            && (error.None? ==> Answers(h, m, Updated(|updated| - |store|)))
            && (error.Some? ==> Fails(h, m, "Update query failed: " + error.value)))
      && (ox.details(text) == Ok(OtherQuery) ==> after == Some(store) && Answers(h, m, UnknownQuery))
  {
  }

  /** DUMP passes on what Oxigraph gives; without a store it says so, and so does QUERY; neither makes one. */
  lemma DumpAlone(ox: Oxigraph, store: Option<Store>, m: Message, thrown: Option<string>, fetched: Option<string>)
    requires m.instruction.Dump? || (m.instruction.Query? && store.None?)
    ensures var (after, h) := Alone(ox, store, m, thrown, fetched);
      && after == store
      && (store.None? ==> Answers(h, m, NoStore))
      && (m.instruction.Dump? && store.Some? ==>
            var dumped := ox.dump(store.value, m.instruction.mimetype);
            && (dumped.Ok? ==> Answers(h, m, Dumped(dumped.value)))
            && (dumped.Err? ==> Fails(h, m, dumped.error)))
  {
  }

  /** A handler answers for the message it was given, and never turns a store back to undefined. */
  lemma HandlersKeepStoreAndOrigin(
      ox: Oxigraph, store: Option<Store>, m: Message, thrown: Option<string>, h: Handler, fetched: Option<string>)
    ensures Received(ox, store, m, thrown).1.Origin() == m.origin
    ensures Resumed(store, h, fetched).1.Origin() == h.Origin()
    ensures store.Some? ==> Received(ox, store, m, thrown).0.Some? && Resumed(store, h, fetched).0 == store
  {
  }
}
