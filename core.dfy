/** core/core.go: the session object `Core`, which owns at most one loaded model
    behind a mutex, reloads and closes it, and turns a chat request into a stream of
    engine fragments delivered by one background worker.

    The mutex is the boolean `busy`: every operation finds it clear, sets it, and
    clears it again on every way out. A chat's worker runs to completion inside the
    call here, so the stream it returns is everything the caller can receive before
    the channel closes. */
module Session {
  import opened Wrappers
  import opened Collaborators
  import opened Util

  /** What the session does to the engine, in order. */
  datatype Event = Closed(runner: Runner) | LoadStarted(name: string)

  /** chatResponse: one item on the stream. */
  datatype ChatResponse = ChatResponse(result: PredictResult, err: Option<Error>)

  /** How the worker's hand-offs meet cancellation. The context is done from
      hand-off `cancelAt` on; before that a send waits for the caller. Once it is
      done, Go's select picks at random between dropping the item and a send the
      caller is ready for: `sendWins(i)` says whether hand-off `i` went out. */
  datatype Schedule = Schedule(cancelAt: nat, sendWins: nat -> bool)

  /** Whether hand-off `i` reaches the caller. */
  predicate HandedOff(sched: Schedule, i: nat) {
    i < sched.cancelAt || sched.sendWins(i)
  }

  /** The fragments that reach the caller, in callback order. */
  function Delivered(fragments: seq<PredictResult>, sched: Schedule): seq<PredictResult>
    decreases |fragments|
  {
    if fragments == [] then []
    else
      var n := |fragments| - 1;
      Delivered(fragments[..n], sched) + if HandedOff(sched, n) then [fragments[n]] else []
  }

  /** Each fragment as the item {r, nil}. */
  function Items(results: seq<PredictResult>): seq<ChatResponse>
    decreases |results|
  {
    if results == [] then []
    else Items(results[..|results| - 1]) + [ChatResponse(results[|results| - 1], None)]
  }

  /** Everything the worker sends: the delivered fragments, then, when Predict
      failed and the last hand-off is not dropped, one item carrying the error. */
  function WorkerTrace(run: EngineRun, sched: Schedule): seq<ChatResponse> {
    Items(Delivered(run.fragments, sched))
      + if run.err.Some? && HandedOff(sched, |run.fragments|) then [ChatResponse(ZeroResult, run.err)] else []
  }

  /** `a` is `b` with some elements left out. */
  predicate IsSubsequence<T(==)>(a: seq<T>, b: seq<T>)
    decreases |b|
  {
    a == [] || (b != [] && (
      IsSubsequence(a, b[..|b| - 1])
      || (a[|a| - 1] == b[|b| - 1] && IsSubsequence(a[..|a| - 1], b[..|b| - 1]))))
  }

  /** The text of a sequence of fragments, concatenated. */
  function Text(results: seq<PredictResult>): string
    decreases |results|
  {
    if results == [] then [] else Text(results[..|results| - 1]) + results[|results| - 1].content
  }

  /** The text a caller collects from a stream, item by item. */
  function StreamText(items: seq<ChatResponse>): string
    decreases |items|
  {
    if items == [] then [] else StreamText(items[..|items| - 1]) + items[|items| - 1].result.content
  }

  lemma {:induction false} ItemsShape(results: seq<PredictResult>)
    ensures |Items(results)| == |results|
    ensures forall i :: 0 <= i < |results| ==> Items(results)[i] == ChatResponse(results[i], None)
    decreases |results|
  {
    if results != [] {
      ItemsShape(results[..|results| - 1]);
    }
  }

  lemma {:induction false} StreamTextOfItems(results: seq<PredictResult>)
    ensures StreamText(Items(results)) == Text(results)
    decreases |results|
  {
    if results != [] {
      var init := results[..|results| - 1];
      StreamTextOfItems(init);
      assert Items(results)[..|Items(results)| - 1] == Items(init);
    }
  }

  /** The delivered fragments are engine fragments, in the engine's order, with
      some possibly dropped. */
  lemma {:induction false} DeliveredIsSubsequence(fragments: seq<PredictResult>, sched: Schedule)
    ensures IsSubsequence(Delivered(fragments, sched), fragments)
    decreases |fragments|
  {
    if fragments != [] {
      var n := |fragments| - 1;
      var before := Delivered(fragments[..n], sched);
      DeliveredIsSubsequence(fragments[..n], sched);
      if HandedOff(sched, n) {
        var d := before + [fragments[n]];
        assert d[..|d| - 1] == before;
      } else {
        assert Delivered(fragments, sched) == before;
        SubsequenceExtends(before, fragments[..n], fragments[n]);
        assert fragments[..n] + [fragments[n]] == fragments;
      }
    }
  }

  lemma SubsequenceExtends<T>(a: seq<T>, b: seq<T>, x: T)
    requires IsSubsequence(a, b)
    ensures IsSubsequence(a, b + [x])
  {
    assert (b + [x])[..|b|] == b;
  }

  /** Before the context is done nothing is dropped: every fragment produced up
      to that point is delivered, in order, ahead of anything else. */
  lemma {:induction false} DeliveredBeforeCancellation(fragments: seq<PredictResult>, sched: Schedule)
    ensures var k := if |fragments| < sched.cancelAt then |fragments| else sched.cancelAt;
      fragments[..k] <= Delivered(fragments, sched)
    decreases |fragments|
  {
    if fragments != [] {
      var n := |fragments| - 1;
      DeliveredBeforeCancellation(fragments[..n], sched);
      var k := if |fragments| < sched.cancelAt then |fragments| else sched.cancelAt;
      if k <= n {
        assert fragments[..n][..k] == fragments[..k];
      } else {
        DeliveredIsShort(fragments[..n], sched);
        assert fragments[..n][..n] == fragments[..n];
        assert fragments[..k] == fragments[..n] + [fragments[n]];
      }
    }
  }

  /** A stream that is never cancelled delivers every fragment. */
  lemma DeliveredUncancelled(fragments: seq<PredictResult>, sched: Schedule)
    requires |fragments| <= sched.cancelAt
    ensures Delivered(fragments, sched) == fragments
  {
    DeliveredBeforeCancellation(fragments, sched);
    DeliveredIsShort(fragments, sched);
    assert fragments[..|fragments|] == fragments;
  }

  lemma {:induction false} DeliveredIsShort(fragments: seq<PredictResult>, sched: Schedule)
    ensures |Delivered(fragments, sched)| <= |fragments|
    decreases |fragments|
  {
    if fragments != [] {
      DeliveredIsShort(fragments[..|fragments| - 1], sched);
    }
  }

  /** When the caller stops receiving once the context is done, the stream is
      exactly the fragments produced before cancellation. */
  lemma {:induction false} DeliveredWhenCallerStops(fragments: seq<PredictResult>, sched: Schedule)
    requires forall i :: sched.cancelAt <= i ==> !sched.sendWins(i)
    ensures var k := if |fragments| < sched.cancelAt then |fragments| else sched.cancelAt;
      Delivered(fragments, sched) == fragments[..k]
    decreases |fragments|
  {
    if fragments != [] {
      var n := |fragments| - 1;
      DeliveredWhenCallerStops(fragments[..n], sched);
      var k := if |fragments| < sched.cancelAt then |fragments| else sched.cancelAt;
      if k <= n {
        assert !HandedOff(sched, n);
        assert fragments[..n][..k] == fragments[..k];
      } else {
        assert fragments[..n][..n] == fragments[..n];
        assert fragments[..k] == fragments[..n] + [fragments[n]];
      }
    }
  }

  /** Without cancellation the caller receives every fragment as {r, nil} and,
      when Predict failed, then its error; the collected text is the engine's
      whole output. */
  lemma WorkerTraceUncancelled(run: EngineRun, sched: Schedule)
    requires |run.fragments| < sched.cancelAt
    ensures WorkerTrace(run, sched)
      == Items(run.fragments) + if run.err.Some? then [ChatResponse(ZeroResult, run.err)] else []
    ensures StreamText(WorkerTrace(run, sched)) == Text(run.fragments)
  {
    DeliveredUncancelled(run.fragments, sched);
    StreamTextOfItems(run.fragments);
    var tail := if run.err.Some? then [ChatResponse(ZeroResult, run.err)] else [];
    if run.err.Some? {
      var t := Items(run.fragments) + tail;
      assert t[..|t| - 1] == Items(run.fragments);
    } else {
      assert Items(run.fragments) + tail == Items(run.fragments);
    }
  }

  /** An error item appears only when Predict failed, at most once, as the last
      item, carrying Predict's error. */
  lemma ErrorItemIsLast(run: EngineRun, sched: Schedule)
    ensures var t := WorkerTrace(run, sched);
      && |t| <= |run.fragments| + 1
      && forall i :: 0 <= i < |t| && t[i].err.Some? ==> i == |t| - 1 && t[i].err == run.err
  {
    var d := Delivered(run.fragments, sched);
    DeliveredIsShort(run.fragments, sched);
    ItemsShape(d);
  }

  /** The worker: a loop over the engine's callbacks, each racing its hand-off
      against cancellation, then one last hand-off for Predict's error. */
  method Deliver(run: EngineRun, sched: Schedule) returns (out: seq<ChatResponse>)
    ensures out == WorkerTrace(run, sched)
  {
    out := [];
    var i := 0;
    while i < |run.fragments|
      invariant 0 <= i <= |run.fragments|
      invariant out == Items(Delivered(run.fragments[..i], sched))
    {
      ghost var delivered := Delivered(run.fragments[..i], sched);
      assert run.fragments[..i + 1][..i] == run.fragments[..i];
      if HandedOff(sched, i) {
        out := out + [ChatResponse(run.fragments[i], None)];
        assert Delivered(run.fragments[..i + 1], sched) == delivered + [run.fragments[i]];
      } else {
        assert Delivered(run.fragments[..i + 1], sched) == delivered;
      }
      i := i + 1;
    }
    assert run.fragments[..i] == run.fragments;
    if run.err.Some? && HandedOff(sched, i) {
      out := out + [ChatResponse(ZeroResult, run.err)];
    }
  }

  const ErrModelNil := "model is nil"
  const ErrNotEmbedding := "model is not an embedding model"

  /** The checks chat makes before it starts the worker, in order: a model is
      loaded, it is not an embedding model, the options merge, the prompt renders.
      Passing them all gives the request the worker hands to Predict. */
  function ChatSetup(env: Env, current: Option<Wrapper>, messages: seq<Message>, options: OptMap, json: bool)
    : (r: Result<PredictOpts, Error>)
    requires current.Some? ==> current.value.runner.Some?
    ensures current.None? ==> r == Err(NewError(ErrModelNil))
    ensures current.Some? && current.value.model.embedding ==> r == Err(NewError(ErrNotEmbedding))
    ensures current.Some? && !current.value.model.embedding ==>
      var w := current.value;
      var merged := ModelOptions(env, w.model, options);
      var prompt := env.chatPrompt(w.model.template, messages, NumCtx(merged.opts), w.runner.value);
      && (merged.err.Some? ==> r == Err(merged.err.value))
      && (merged.err.None? && prompt.Err? ==> r == Err(prompt.error))
      && (r.Ok? <==> merged.err.None? && prompt.Ok?)
      && (r.Ok? ==> r.value == PredictOpts(prompt.value, if json then "json" else "", merged.opts))
  {
    if current.None? then Err(NewError(ErrModelNil))
    else
      var w := current.value;
      if w.model.embedding then Err(NewError(ErrNotEmbedding))
      else
        var merged := ModelOptions(env, w.model, options);
        if merged.err.Some? then Err(merged.err.value)
        else
          match env.chatPrompt(w.model.template, messages, NumCtx(merged.opts), w.runner.value)
          case Err(e) => Err(e)
          case Ok(prompt) => Ok(PredictOpts(prompt, if json then "json" else "", merged.opts))
  }

  /** Chat and ChatJSON pass or fail the same checks; the format hint is "json"
      exactly for ChatJSON. */
  lemma FormatHintOnlyForJson(env: Env, current: Option<Wrapper>, messages: seq<Message>, options: OptMap)
    requires current.Some? ==> current.value.runner.Some?
    ensures ChatSetup(env, current, messages, options, true).Ok? <==> ChatSetup(env, current, messages, options, false).Ok?
    ensures ChatSetup(env, current, messages, options, true).Ok? ==>
      && ChatSetup(env, current, messages, options, true).value.format == "json"
      && ChatSetup(env, current, messages, options, false).value.format == ""
      && ChatSetup(env, current, messages, options, true).value.prompt == ChatSetup(env, current, messages, options, false).value.prompt
  {
  }

  /** Embedding: a loaded embedding model passes the engine's answer through
      unchanged; no model, or a generation model, is an error. */
  function EmbeddingResult(env: Env, current: Option<Wrapper>, prompt: string): (r: Result<Vector, Error>)
    requires current.Some? ==> current.value.runner.Some?
    ensures current.None? ==> r == Err(NewError(ErrModelNil))
    ensures current.Some? && !current.value.model.embedding ==> r == Err(NewError(ErrNotEmbedding))
    ensures current.Some? && current.value.model.embedding ==> r == env.embed(current.value.runner.value, prompt)
  {
    if current.None? then Err(NewError(ErrModelNil))
    else if !current.value.model.embedding then Err(NewError(ErrNotEmbedding))
    else env.embed(current.value.runner.value, prompt)
  }

  /** The capability guard in both directions: an embedding model refuses chat,
      a generation model refuses embeddings. */
  lemma CapabilityGuard(env: Env, w: Wrapper, messages: seq<Message>, options: OptMap, json: bool, prompt: string)
    requires w.runner.Some?
    ensures w.model.embedding ==> ChatSetup(env, Some(w), messages, options, json).Err?
    ensures !w.model.embedding ==> EmbeddingResult(env, Some(w), prompt).Err?
  {
  }

  /** The engine calls Close makes: the held runner's, if a model is held. */
  function Closing(current: Option<Wrapper>): seq<Event> {
    if current.Some? && current.value.runner.Some? then [Closed(current.value.runner.value)] else []
  }

  class Core {
    /** The loaded model, if any. */
    var model: Option<Wrapper>
    /** The mutex: held while an operation or a chat stream is running. */
    var busy: bool
    /** The engine calls made so far. */
    ghost var log: seq<Event>

    /** A held model always has a running engine. */
    ghost predicate Valid()
      reads this
    {
      model.Some? ==> model.value.runner.Some?
    }

    /** &Core{}: no model, mutex free. */
    constructor ()
      ensures Valid() && model.None? && !busy && log == []
    {
      model := None;
      busy := false;
      log := [];
    }

    /** New: initialise the engine library, then load `name`. `initErr` is what
        llm.Init returns. */
    static method New(env: Env, initErr: Option<Error>, name: string) returns (c: Core?, err: Option<Error>)
      ensures initErr.Some? ==> c == null && err == Some(Wrap("unable to initialize llm library ", initErr.value))
      ensures initErr.None? ==> err == Load(env, name).err && (c != null <==> err.None?)
      ensures c != null ==>
        && fresh(c) && c.Valid() && !c.busy
        && c.model == Load(env, name).wrapper && c.model.Some?
        && c.log == [LoadStarted(name)]
    {
      if initErr.Some? {
        return null, Some(Wrap("unable to initialize llm library ", initErr.value));
      }
      c := new Core();
      c.log := c.log + [LoadStarted(name)];
      var loaded := Load(env, name);
      if loaded.err.Some? {
        return null, loaded.err;
      }
      c.model := loaded.wrapper;
      err := None;
    }

    /** Close: closes the held engine if there is one. The field is not cleared,
        so the model stays installed. */
    method Close()
      requires Valid() && !busy
      modifies this
      ensures Valid() && !busy && model == old(model)
      ensures log == old(log) + Closing(old(model))
    {
      busy := true;
      if model.Some? {
        log := log + [Closed(model.value.runner.value)];
      }
      busy := false;
    }

    /** Reload: nothing happens when `name` is the loaded model's name. Otherwise
        the name must resolve before anything is closed; then the old engine is
        closed, the session emptied, and the model loaded; a failed load leaves
        the session empty. */
    method Reload(env: Env, name: string) returns (err: Option<Error>)
      requires Valid() && !busy
      modifies this
      ensures Valid() && !busy
      ensures old(model).Some? && old(model).value.model.name == name ==>
        err.None? && model == old(model) && log == old(log)
      ensures !(old(model).Some? && old(model).value.model.name == name) && env.getModel(name).Err? ==>
        err == Some(env.getModel(name).error) && model == old(model) && log == old(log)
      ensures !(old(model).Some? && old(model).value.model.name == name) && env.getModel(name).Ok? ==>
        && log == old(log) + Closing(old(model)) + [LoadStarted(name)]
        && err == Load(env, name).err
        && model == if err.None? then Load(env, name).wrapper else None
    {
      busy := true;
      if model.Some? && model.value.model.name == name {
        busy := false;
        return None;
      }
      var resolved := env.getModel(name);
      if resolved.Err? {
        busy := false;
        return Some(resolved.error);
      }
      if model.Some? {
        log := log + [Closed(model.value.runner.value)];
      }
      model := None;
      log := log + [LoadStarted(name)];
      var loaded := Load(env, name);
      if loaded.err.Some? {
        busy := false;
        return loaded.err;
      }
      model := loaded.wrapper;
      busy := false;
      err := None;
    }

    /** chat: the checks of ChatSetup, each failing with no stream; otherwise
        the stream the worker delivers. The mutex is free again afterwards on
        every path. */
    method ChatStream(env: Env, sched: Schedule, messages: seq<Message>, options: OptMap, json: bool)
      returns (stream: Option<seq<ChatResponse>>, err: Option<Error>)
      requires Valid() && !busy
      modifies this
      ensures Valid() && !busy && model == old(model) && log == old(log)
      ensures ChatSetup(env, model, messages, options, json).Err? ==>
        stream.None? && err == Some(ChatSetup(env, model, messages, options, json).error)
      ensures ChatSetup(env, model, messages, options, json).Ok? ==>
        && err.None?
        && stream == Some(WorkerTrace(env.predict(model.value.runner.value, ChatSetup(env, model, messages, options, json).value), sched))
    {
      busy := true;
      if model.None? {
        busy := false;
        return None, Some(NewError(ErrModelNil));
      }
      var w := model.value;
      if w.model.embedding {
        busy := false;
        return None, Some(NewError(ErrNotEmbedding));
      }
      var merged := ModelOptions(env, w.model, options);
      if merged.err.Some? {
        busy := false;
        return None, merged.err;
      }
      var prompt := env.chatPrompt(w.model.template, messages, NumCtx(merged.opts), w.runner.value);
      if prompt.Err? {
        busy := false;
        return None, Some(prompt.error);
      }
      var format := "";
      if json {
        format := "json";
      }
      var request := PredictOpts(prompt.value, format, merged.opts);
      var items := Deliver(env.predict(w.runner.value, request), sched);
      busy := false;
      return Some(items), None;
    }

    /** Chat: chat without a format hint. */
    method Chat(env: Env, sched: Schedule, messages: seq<Message>, options: OptMap)
      returns (stream: Option<seq<ChatResponse>>, err: Option<Error>)
      requires Valid() && !busy
      modifies this
      ensures Valid() && !busy && model == old(model) && log == old(log)
      ensures ChatSetup(env, model, messages, options, false).Err? ==>
        stream.None? && err == Some(ChatSetup(env, model, messages, options, false).error)
      ensures ChatSetup(env, model, messages, options, false).Ok? ==>
        && err.None?
        && stream == Some(WorkerTrace(env.predict(model.value.runner.value, ChatSetup(env, model, messages, options, false).value), sched))
    {
      stream, err := ChatStream(env, sched, messages, options, false);
    }

    /** ChatJSON: chat asking the engine for JSON. */
    method ChatJSON(env: Env, sched: Schedule, messages: seq<Message>, options: OptMap)
      returns (stream: Option<seq<ChatResponse>>, err: Option<Error>)
      requires Valid() && !busy
      modifies this
      ensures Valid() && !busy && model == old(model) && log == old(log)
      ensures ChatSetup(env, model, messages, options, true).Err? ==>
        stream.None? && err == Some(ChatSetup(env, model, messages, options, true).error)
      ensures ChatSetup(env, model, messages, options, true).Ok? ==>
        && err.None?
        && stream == Some(WorkerTrace(env.predict(model.value.runner.value, ChatSetup(env, model, messages, options, true).value), sched))
    {
      stream, err := ChatStream(env, sched, messages, options, true);
    }

    /** Embedding: the checks and the engine's answer of EmbeddingResult; the
        mutex is free again on every path. */
    method Embedding(env: Env, prompt: string) returns (r: Result<Vector, Error>)
      requires Valid() && !busy
      modifies this
      ensures Valid() && !busy && model == old(model) && log == old(log)
      ensures r == EmbeddingResult(env, model, prompt)
    {
      busy := true;
      if model.None? {
        busy := false;
        return Err(NewError(ErrModelNil));
      }
      if !model.value.model.embedding {
        busy := false;
        return Err(NewError(ErrNotEmbedding));
      }
      var embedding := env.embed(model.value.runner.value, prompt);
      busy := false;
      match embedding
      case Err(e) => return Err(e);
      case Ok(v) => return Ok(v);
    }
  }

  /** Closing twice closes the same engine twice. */
  method CloseTwice(c: Core)
    requires c.Valid() && !c.busy && c.model.Some?
    modifies c
    ensures c.model == old(c.model)
    ensures c.log == old(c.log) + [Closed(c.model.value.runner.value), Closed(c.model.value.runner.value)]
  {
    c.Close();
    c.Close();
  }

  /** A name the registry resolves to a model of that name is loaded once: once
      the first reload succeeds, a second one with the same name succeeds without
      touching the engine. */
  method ReloadSameNameTwice(c: Core, env: Env, name: string) returns (first: Option<Error>, second: Option<Error>)
    requires c.Valid() && !c.busy
    requires env.getModel(name).Ok? && env.getModel(name).value.name == name
    modifies c
    ensures c.Valid() && !c.busy
    ensures first.None? ==> second.None? && c.model.Some? && c.model.value.model.name == name
    ensures first.None? && old(c.model).Some? && old(c.model).value.model.name == name ==>
      c.log == old(c.log) && c.model == old(c.model)
    ensures first.None? && !(old(c.model).Some? && old(c.model).value.model.name == name) ==>
      c.log == old(c.log) + Closing(old(c.model)) + [LoadStarted(name)]
  {
    first := c.Reload(env, name);
    second := c.Reload(env, name);
  }
}
