/** core/util.go: layering of option maps over the engine defaults, and `load`,
    which resolves a model name, starts the engine on it and explains engine
    failures that look like an incompatible model file. */
module Util {
  import opened Wrappers
  import opened GoStrings
  import opened Collaborators

  /** The (api.Options, error) pair modelOptions returns. */
  datatype Merged = Merged(opts: Options, err: Option<Error>)

  /** modelOptions: the defaults, overlaid with the model's stored options, then
      with the request's. The first failing overlay decides the error, and the
      options returned beside an error are the zero value. */
  function ModelOptions(env: Env, model: Model, request: OptMap): (r: Merged)
    ensures r.err.Some? ==> r.opts == ZeroOptions
    ensures env.fromMap(env.defaults, model.options).Err? ==>
      r.err == Some(env.fromMap(env.defaults, model.options).error)
    ensures env.fromMap(env.defaults, model.options).Ok? ==>
      var second := env.fromMap(env.fromMap(env.defaults, model.options).value, request);
      && (r.err.None? <==> second.Ok?)
      && (second.Ok? ==> r.opts == second.value)
      && (second.Err? ==> r.err == Some(second.error))
  {
    match env.fromMap(env.defaults, model.options)
    case Err(e) => Merged(ZeroOptions, Some(e))
    case Ok(withModel) =>
      match env.fromMap(withModel, request)
      case Err(e) => Merged(ZeroOptions, Some(e))
      case Ok(withRequest) => Merged(withRequest, None)
  }

  /** Once the model's own options are rejected, the request's options are never
      looked at: the outcome is the same whatever the request asks for. */
  lemma ModelLayerFailureSkipsRequest(env: Env, model: Model, request1: OptMap, request2: OptMap)
    requires env.fromMap(env.defaults, model.options).Err?
    ensures ModelOptions(env, model, request1) == ModelOptions(env, model, request2)
    ensures ModelOptions(env, model, request1).err.Some?
  {
  }

  /** When FromMap is a plain key-by-key overlay, later layers win: a key set by
      the request has the request's value, otherwise the model's, otherwise the
      default's. */
  lemma LaterLayersWin(env: Env, model: Model, request: OptMap, key: string)
    requires forall o: Options, m: OptMap :: env.fromMap(o, m) == Ok(Options(o.fields + m))
    requires key in env.defaults.fields || key in model.options || key in request
    ensures ModelOptions(env, model, request).err.None?
    ensures var fields := ModelOptions(env, model, request).opts.fields;
      && key in fields
      && fields[key] == if key in request then request[key]
                        else if key in model.options then model.options[key]
                        else env.defaults.fields[key]
  {
    var withModel := Options(env.defaults.fields + model.options);
    assert env.fromMap(env.defaults, model.options) == Ok(withModel);
    assert env.fromMap(withModel, request) == Ok(Options(withModel.fields + request));
  }

  /** llmWrapper: the engine instance (nil when llm.New failed) together with
      the model record it was started for. */
  datatype Wrapper = Wrapper(runner: Option<Runner>, model: Model)

  /** The (*llmWrapper, error) pair load returns. */
  datatype Loaded = Loaded(wrapper: Option<Wrapper>, err: Option<Error>)

  /** The phrase that marks an engine error as a possible incompatibility. */
  const LoadFailurePhrase := "failed to load model"

  /** The remediation text appended to an incompatible-model error, up to the
      model's name. */
  const HintLead := ": this model may be incompatible with your version of Ollama. If you previously pulled this model, try updating it by running `ollama pull "

  /** The whole remediation text for the model called `shortName`. */
  function IncompatibleHint(shortName: string): string {
    HintLead + shortName + "`"
  }

  /** The engine error test as the source writes it: errors.Is with its two
      arguments swapped, so it asks whether `err` is on the sentinel's chain. The
      sentinel wraps nothing, so only the sentinel itself passes the first half. */
  predicate IsIncompatibleAsWritten(err: Error)
    ensures IsIncompatibleAsWritten(err) <==>
      err.ident == UnsupportedFormatSentinel || Contains(err.text, LoadFailurePhrase)
  {
    Is(ErrUnsupportedFormat, err) || Contains(err.text, LoadFailurePhrase)
  }

  /** The engine error test as intended: `err` is, or wraps, the unsupported-
      format sentinel, or its text mentions a failed model load. */
  predicate IsIncompatible(err: Error)
    ensures IsIncompatible(err) <==>
      || err.ident == UnsupportedFormatSentinel
      || UnsupportedFormatSentinel in err.wraps
      || Contains(err.text, LoadFailurePhrase)
  {
    Is(err, ErrUnsupportedFormat) || Contains(err.text, LoadFailurePhrase)
  }

  /** A text shorter than what is looked for cannot contain it. */
  lemma {:induction false} ShortTextContainsNothing(s: string, sub: string)
    requires |s| < |sub|
    ensures !Contains(s, sub)
    decreases |s|
  {
    if |s| > 0 {
      ShortTextContainsNothing(s[1..], sub);
    }
  }

  /** The swapped errors.Is misses an engine error that wraps the sentinel. */
  lemma SwappedIsMissesWrappedSentinel()
    ensures var e := Error(Fresh, [UnsupportedFormatSentinel], "bad gguf");
      !IsIncompatibleAsWritten(e) && IsIncompatible(e)
  {
    ShortTextContainsNothing("bad gguf", LoadFailurePhrase);
  }

  /** Everything the written test accepts, the intended one accepts too; on an
      error that wraps nothing the two agree. */
  lemma IntendedTestExtendsWritten(err: Error)
    ensures IsIncompatibleAsWritten(err) ==> IsIncompatible(err)
    ensures err.wraps == [] ==> (IsIncompatibleAsWritten(err) <==> IsIncompatible(err))
  {
  }

  /** The annotated error: the engine's text followed by the hint naming the
      model. It is formatted with %v, so it no longer wraps anything. */
  function Annotate(err: Error, shortName: string): (r: Error)
    ensures HasPrefix(r.text, err.text)
    ensures r.text[|err.text|..] == IncompatibleHint(shortName)
    ensures Contains(r.text, shortName)
    ensures forall t :: !Is(r, t)
  {
    var text := err.text + HintLead + shortName + "`";
    var annotated := NewError(text);
    var at := |err.text| + |HintLead|;
    assert text[at..] == shortName + "`";
    assert HasPrefix(text[at..], shortName);
    ContainsAt(annotated.text, shortName, at);
    annotated
  }

  /** What load reports for an engine error, with the classification intended
      by util.go:43. */
  function LoadError(err: Error, model: Model): (r: Error)
    ensures IsIncompatible(err) ==> r == Annotate(err, model.shortName)
    ensures !IsIncompatible(err) ==> r == err
  {
    if IsIncompatible(err) then Annotate(err, model.shortName) else err
  }

  /** What load reports for an engine error, with the classification util.go:43
      actually makes. */
  function LoadErrorAsWritten(err: Error, model: Model): (r: Error)
    ensures IsIncompatibleAsWritten(err) ==> r == Annotate(err, model.shortName)
    ensures !IsIncompatibleAsWritten(err) ==> r == err
  {
    if IsIncompatibleAsWritten(err) then Annotate(err, model.shortName) else err
  }

  /** The written and the intended report differ exactly on an engine error that
      is not the sentinel itself, wraps it, and does not mention a failed load:
      the code returns it unchanged, the intended test annotates it. */
  lemma LoadErrorAsWrittenDiffers(err: Error, model: Model)
    ensures LoadErrorAsWritten(err, model) != LoadError(err, model) <==>
      && err.ident != UnsupportedFormatSentinel
      && UnsupportedFormatSentinel in err.wraps
      && !Contains(err.text, LoadFailurePhrase)
    ensures LoadErrorAsWritten(err, model) != LoadError(err, model) ==>
      LoadErrorAsWritten(err, model) == err && LoadError(err, model) == Annotate(err, model.shortName)
  {
    if !IsIncompatibleAsWritten(err) && IsIncompatible(err) {
      var a := Annotate(err, model.shortName);
      assert |a.text| == |err.text| + |IncompatibleHint(model.shortName)|;
      assert a != err;
    }
  }

  /** The llm.New call load makes: the model's files, and the options of
      modelOptions(model, nil) with its error ignored. */
  function StartEngine(env: Env, model: Model): Result<Runner, Error> {
    env.newRunner(model.modelPath, model.adapterPaths, model.projectorPaths, ModelOptions(env, model, map[]).opts)
  }

  /** load: a resolution failure is returned as is, with no wrapper. Once the
      name resolves there is always a wrapper carrying the resolved model, also
      when the engine failed; an engine failure is reported through LoadError. */
  function Load(env: Env, name: string): (r: Loaded)
    ensures env.getModel(name).Err? ==> r == Loaded(None, Some(env.getModel(name).error))
    ensures env.getModel(name).Ok? ==>
      var model := env.getModel(name).value;
      && r.wrapper == Some(Wrapper(if StartEngine(env, model).Ok? then Some(StartEngine(env, model).value) else None, model))
      && (r.err.None? <==> StartEngine(env, model).Ok?)
      && (StartEngine(env, model).Err? ==> r.err == Some(LoadError(StartEngine(env, model).error, model)))
    ensures r.err.None? ==> r.wrapper.Some? && r.wrapper.value.runner.Some?
  {
    match env.getModel(name)
    case Err(e) => Loaded(None, Some(e))
    case Ok(model) =>
      match StartEngine(env, model)
      case Ok(runner) => Loaded(Some(Wrapper(Some(runner), model)), None)
      case Err(e) => Loaded(Some(Wrapper(None, model)), Some(LoadError(e, model)))
  }

  /** A rejected option map does not stop load: the engine is then started with
      the zero options. */
  lemma LoadIgnoresOptionError(env: Env, name: string)
    requires env.getModel(name).Ok?
    requires ModelOptions(env, env.getModel(name).value, map[]).err.Some?
    ensures var m := env.getModel(name).value;
      StartEngine(env, m) == env.newRunner(m.modelPath, m.adapterPaths, m.projectorPaths, ZeroOptions)
  {
  }
}
