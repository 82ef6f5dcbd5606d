/** The outside world the core package talks to: Go errors, the registry's model
    records (`server.Model`), engine options (`api.Options`), conversation messages
    (`api.Message`), and the engine itself (`llm.LLM`). Everything the core does not
    implement is a function field of `Env`, so every operation of the model is a
    function of the collaborators it is given. */
module Collaborators {
  import opened Wrappers

  /** The identity of a Go error value as `errors.Is` sees it. Only the two
      sentinel errors the core compares against have a known identity; every other
      error is a `Fresh` value that equals no sentinel. */
  datatype Ident = NotExistSentinel | UnsupportedFormatSentinel | Fresh

  /** A Go error: its own identity, the identities of the errors it wraps (the
      chain `errors.Unwrap` walks) and its `Error()` text. */
  datatype Error = Error(ident: Ident, wraps: seq<Ident>, text: string)

  /** os.ErrNotExist */
  const ErrNotExist := Error(NotExistSentinel, [], "file does not exist")

  /** llm.ErrUnsupportedFormat */
  const ErrUnsupportedFormat := Error(UnsupportedFormatSentinel, [], "unsupported model format")

  /** The errors on the unwrap chain of `e`, starting with `e` itself. */
  function Chain(e: Error): seq<Ident> {
    [e.ident] + e.wraps
  }

  /** errors.Is(err, target): some error on err's chain is `target`. Identity is
      only meaningful for the sentinels, so a `Fresh` target matches nothing. */
  predicate Is(err: Error, target: Error)
    ensures Is(err, target) <==>
      target.ident != Fresh && (err.ident == target.ident || target.ident in err.wraps)
  {
    target.ident != Fresh && target.ident in Chain(err)
  }

  /** fmt.Errorf without a `%w` verb: a new error that only carries the text. */
  function NewError(text: string): (e: Error)
    ensures e.ident == Fresh && e.wraps == [] && e.text == text
    ensures forall t :: !Is(e, t)
  {
    Error(Fresh, [], text)
  }

  /** fmt.Errorf(prefix + "%w", err): a new error whose text extends err's and
      whose chain contains err's whole chain. */
  function Wrap(prefix: string, err: Error): (e: Error)
    ensures e.text == prefix + err.text
    ensures forall t :: Is(e, t) <==> Is(err, t)
  {
    Error(Fresh, Chain(err), prefix + err.text)
  }

  /** A value of a `map[string]interface{}` option map. */
  datatype OptValue = OptBool(b: bool) | OptInt(i: int) | OptFloat(f: real) | OptString(s: string)

  /** A request's or a model's option map; Go's nil map is the empty map. */
  type OptMap = map<string, OptValue>

  /** api.Options: the value of every recognised option field, by its JSON key.
      A key that is absent holds Go's zero value. */
  datatype Options = Options(fields: map<string, OptValue>)

  /** api.Options{}: every field at its zero value. */
  const ZeroOptions := Options(map[])

  /** opts.NumCtx */
  function NumCtx(o: Options): int {
    if "num_ctx" in o.fields && o.fields["num_ctx"].OptInt? then o.fields["num_ctx"].i else 0
  }

  /** server.Model, as far as the core reads it. `embedding` is the answer of
      the model's IsEmbedding(). */
  datatype Model = Model(
    name: string,
    shortName: string,
    modelPath: string,
    adapterPaths: seq<string>,
    projectorPaths: seq<string>,
    template: string,
    options: OptMap,
    embedding: bool)

  /** api.Message */
  datatype Message = Message(role: string, content: string, images: seq<seq<bv8>>)

  /** One loaded engine instance (an llm.LLM), known by its identity. */
  datatype Runner = Runner(id: nat)

  /** llm.PredictResult: one fragment produced by the engine. */
  datatype PredictResult = PredictResult(content: string, done: bool)

  /** llm.PredictResult{} */
  const ZeroResult := PredictResult("", false)

  /** llm.PredictOpts: what the worker hands to Predict. */
  datatype PredictOpts = PredictOpts(prompt: string, format: string, options: Options)

  /** What one Predict call does: the fragments it calls back with, in order, and
      the error it returns. */
  datatype EngineRun = EngineRun(fragments: seq<PredictResult>, err: Option<Error>)

  /** An embedding vector: an opaque payload to the core. */
  type Vector = seq<real>

  /** The collaborators.
      - getModel: server.GetModel
      - defaults: api.DefaultOptions()
      - fromMap: opts.FromMap(m), giving the updated options or its error
      - newRunner: llm.New(modelPath, adapterPaths, projectorPaths, opts)
      - chatPrompt: server.ChatPrompt(template, messages, numCtx, encode), where
        `encode` tokenises with the given runner
      - predict: runner.Predict(ctx, opts, fn), as the sequence of fragments it
        passes to `fn` and the error it returns
      - embed: runner.Embedding(ctx, prompt) */
  datatype Env = Env(
    getModel: string -> Result<Model, Error>,
    defaults: Options,
    fromMap: (Options, OptMap) -> Result<Options, Error>,
    newRunner: (string, seq<string>, seq<string>, Options) -> Result<Runner, Error>,
    chatPrompt: (string, seq<Message>, int, Runner) -> Result<string, Error>,
    predict: (Runner, PredictOpts) -> EngineRun,
    embed: (Runner, string) -> Result<Vector, Error>)
}
