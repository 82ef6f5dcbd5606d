# A verified model of the ollama `core` package

The `core` package embeds a local language-model runtime in a Go program. A
`Core` session holds at most one loaded model behind a mutex. The session can
reload the model under another name, close it, run a chat turn that streams
engine fragments back over a channel, and compute an embedding. Beside the
session the package has:

- model-store helpers: whether a model exists, and a listing of the local
  manifests as `model:tag` names;
- option layering: engine defaults, then the model's stored options, then the
  request's;
- the loader, which adds a remediation hint to engine errors that look like an
  incompatible model file.

The model has six modules:

- `Wrappers`: `Option` and `Result`.
- `GoStrings`: the pieces of Go's `strings` and `path/filepath` that the
  listing uses: prefix, trim, replace, join and split, with split's backward
  scan for the last separator.
- `Collaborators`: the outside world.
  - Go errors carry an identity, the identities they wrap, and a text, so
    `errors.Is`, `%v` and `%w` can be told apart.
  - The registry, the option overlay, the engine and the prompt renderer are
    function fields of an `Env` value.
- `Util` (core/util.go): `ModelOptions`, the error classification, `Annotate`
  and `Load`.
- `Image` (core/image.go): `HasModel`, the canonical name derived from a
  manifest path, and `ListModel`, a loop over the walked entries proved equal
  to the specification function `Listed`.
- `Session` (core/core.go): the class `Core`.
  - It has the fields `model` and `busy` (the mutex) and a ghost `log` of the
    engine calls it makes (closes and loads).
  - The streaming worker is the method `Deliver`, a loop over the engine's
    callbacks proved equal to `WorkerTrace`.
  - A `Schedule` says when the context is cancelled and, after that, which
    hand-offs Go's `select` still lets through.

## Behaviour of the code worth knowing

- **Close does not clear the field.** `Close` closes the held engine but leaves
  `c.model` in place (core/core.go:46-53). A second `Close` therefore closes the
  same engine again; `Session.CloseTwice` states this.
- **A cancelled stream is a subsequence of the fragments, not always a prefix.**
  Once the context is done, `select` picks at random between dropping a fragment
  and a send the caller is still ready to take (core/core.go:131-135). A later
  fragment can still be delivered after an earlier one was dropped.
  - `Session.DeliveredIsSubsequence` states what always holds.
  - `Session.DeliveredBeforeCancellation` says everything produced before
    cancellation is delivered first.
  - `Session.DeliveredWhenCallerStops` says the stream is exactly that prefix
    when the caller stops receiving.
- **The no-op test in Reload compares against the resolved model's `Name`**
  (core/core.go:58), not against the name last passed in. A second reload of
  the same name is only a no-op when the registry resolves the name to a model
  of that very name (`Session.ReloadSameNameTwice`).
- **The chat capability error reads "model is not an embedding model"**
  (core/core.go:100), yet it is raised when the model *is* an embedding model.
  The model keeps the code's condition and its text.
- **The incompatibility test calls `errors.Is` with its arguments swapped**
  (core/util.go:43); see "## Findings". `Util.LoadErrorAsWritten` models the
  code, `Util.LoadError` the intended test, and `Util.Load` uses the latter.

## Model

| member | source | states |
|---|---|---|
| Collaborators.Is | core/util.go:43 | `errors.Is(err, target)`: a sentinel target matches when it is `err` itself or an error `err` wraps; an error without a sentinel identity matches nothing |
| Collaborators.NewError | core/core.go:95 | `fmt.Errorf` without `%w`: a new error carrying only the given text; it wraps nothing and matches no target under `errors.Is` |
| Collaborators.NumCtx | core/core.go:112 | `opts.NumCtx`: the `num_ctx` option when it holds an integer, else Go's zero |
| Collaborators.Wrap | core/core.go:24 | a `%w` error's text is the prefix followed by the wrapped text, and it matches under `errors.Is` exactly the targets the wrapped error matches |
| GoStrings.Contains | core/util.go:43 | `strings.Contains`: `sub` occurs at some position of `s`; ContainsAt and ContainsHasOccurrence give the two directions |
| GoStrings.ContainsAt | core/util.go:43 | an occurrence of `sub` at any position makes `s` contain it |
| GoStrings.ContainsHasOccurrence | core/util.go:43 | a text contains `sub` only where `sub` occurs at some position |
| GoStrings.SplitPath | core/image.go:34 | the directory and file halves concatenate to the path, the file half has no separator, and a non-empty directory half ends in one |
| GoStrings.TrimPrefix | core/image.go:35 | the prefix is removed exactly when the text starts with it, and otherwise the text is unchanged |
| GoStrings.Trim | core/image.go:35 | no cut character is left at either end of the result |
| GoStrings.TrimRemovesOnlyCutset | core/image.go:35 | the trimmed text is a contiguous piece of the input, and everything removed before and after it is the cut character |
| GoStrings.ReplaceAllRemoves | core/image.go:37 | after replacing a character by a different one, none of it is left |
| GoStrings.ReplaceAll | core/image.go:37 | `strings.ReplaceAll` for one character: the length is kept; its content is stated by ReplaceAllAt, ReplaceAllConcat, ReplaceAllAbsent and ReplaceAllRemoves |
| GoStrings.Join | core/image.go:36 | `strings.Join`: the parts with the separator between consecutive ones; used on the two parts model and tag |
| GoStrings.LastIndex | core/image.go:34 | the result is -1 or the position of the character, and no occurrence lies after it |
| Util.ModelOptions | core/util.go:13-24 | the result is the request overlay applied to the model overlay applied to the defaults; the first failing overlay's error is returned, with zero options |
| Util.ModelLayerFailureSkipsRequest | core/util.go:15-17 | when the model's options are rejected, the outcome is an error whatever the request asks for, so the request layer is never applied |
| Util.LaterLayersWin | core/util.go:14-23 | with a key-by-key overlay, every key ends with the request's value, else the model's, else the default |
| Util.Annotate | core/util.go:44 | the annotated text is the engine's text followed by the remediation hint, it names the model's short name, and the new error wraps nothing |
| Util.LoadError | core/util.go:43-45 | with the intended classification, an incompatible-looking engine error is annotated and any other is returned unchanged |
| Util.SwappedIsMissesWrappedSentinel | core/util.go:43 | an engine error that wraps the unsupported-format sentinel is missed by the swapped test and caught by the intended one |
| Util.IsIncompatibleAsWritten | core/util.go:43 | the test as written holds exactly when the error is the unsupported-format sentinel itself or its text contains "failed to load model" |
| Util.IsIncompatible | core/util.go:43 | the intended test holds exactly when the error is or wraps the unsupported-format sentinel, or its text contains "failed to load model" |
| Util.LoadErrorAsWritten | core/util.go:43-45 | with the classification as written, an incompatible-looking engine error is annotated and any other is returned unchanged |
| Util.LoadErrorAsWrittenDiffers | core/util.go:43-45 | the written and intended reports differ exactly on an error that is not the sentinel, wraps it, and does not mention a failed load; there the code returns it unchanged and the intended test annotates it |
| Util.IntendedTestExtendsWritten | core/util.go:43 | the intended test accepts everything the written one does, and the two agree on errors that wrap nothing |
| Util.Load | core/util.go:31-49 | a registry failure gives no wrapper and the registry's error; once the name resolves, the wrapper carries the model and the engine (none when it failed), and an engine failure is reported through LoadError |
| Util.LoadIgnoresOptionError | core/util.go:36-38 | when the model's options are rejected, the engine is still started, with the zero options |
| Util.StartEngine | core/util.go:36-38 | the engine is started on the model's files with the options of `modelOptions(model, nil)`, its error discarded |
| Image.HasModel | core/image.go:14-23 | the answer is present iff the registry resolves the name, absent iff it reports a not-exist error, and any other registry error is passed on unchanged |
| Image.HasModelAgreesWithLoad | core/image.go:15-22 | HasModel reports presence exactly when load builds a wrapper; otherwise load fails with the error HasModel classified |
| Image.CanonicalName | core/image.go:34-37 | the name walkFunc derives: split off the file, strip the manifests prefix and separators, join with a colon, turn separators into `/`; its meaning is the lemmas CanonicalNameOfManifestFile, TagFollowsLastColon and CanonicalNameHasNoSeparator |
| Image.ModelDir | core/image.go:35 | the model part has no separator at either end |
| Image.CanonicalNameOfManifestFile | core/image.go:34-37 | for any separator other than `:`, the manifest file `manifests/d1/…/dk/tag` is looked up under the name `d1/…/dk:tag` |
| Image.TagFollowsLastColon | core/image.go:34-37 | for a separator other than `:` and any path whose file name has no colon, the text after the last colon of the derived name is the file name, the tag |
| Image.CanonicalNameHasNoSeparator | core/image.go:37 | on a system whose separator is not `/`, no separator is left in a derived name |
| Image.Lookup | core/image.go:39 | each walk entry is looked up in the registry under its canonical name |
| Image.Listed | core/image.go:32-46 | the models collected after a walk, each file entry that resolves adding its model at the end; its meaning is ListedAppend, ListedIgnoresDirectories, ListedMembership and ListedBounded |
| Image.ListedAppend | core/image.go:39-42 | listing a walk in two parts gives the first part's models followed by the second's, so walk order is kept |
| Image.ListedIgnoresDirectories | core/image.go:33 | directory entries contribute nothing: listing only the files gives the same models |
| Image.ListedMembership | core/image.go:32-46 | a model is listed iff some file entry's canonical name resolves to it |
| Image.ListedBounded | core/image.go:39-42 | no more models are listed than there are file entries |
| Image.ListModel | core/image.go:25-52 | a manifests-path error is returned as is; otherwise the result is the registry's models for the file entries that resolve, in walk order |
| Session.Deliver | core/core.go:125-152 | the worker's loop sends exactly the worker trace: each fragment handed off, as `{r, nil}`, then the predict error if its hand-off goes out |
| Session.Delivered | core/core.go:129-136 | the fragments whose hand-off reaches the caller, in callback order; its meaning is the lemmas below |
| Session.WorkerTrace | core/core.go:125-152 | the delivered fragments as `{r, nil}` items, then `{Err: err}` when predict failed and that last hand-off reaches the caller |
| Session.DeliveredIsSubsequence | core/core.go:129-136 | the delivered fragments are the engine's fragments in callback order, possibly with some dropped |
| Session.DeliveredBeforeCancellation | core/core.go:129-136 | every fragment produced before cancellation is delivered, in order, ahead of anything else |
| Session.DeliveredUncancelled | core/core.go:129-136 | a stream that is never cancelled delivers every fragment |
| Session.DeliveredWhenCallerStops | core/core.go:131-133 | when no send wins after cancellation, the stream is exactly the fragments produced before it |
| Session.WorkerTraceUncancelled | core/core.go:125-152 | without cancellation, the caller receives every fragment and then the predict error, if any, and the collected text is the engine's whole output |
| Session.ErrorItemIsLast | core/core.go:145-150 | an error item appears only when predict failed, at most once, as the last item, carrying predict's error |
| Session.ChatSetup | core/core.go:93-123 | chat's checks run in order (no model, embedding model, option merge, prompt render), each with its own error; passing them gives the merged options, the rendered prompt and the format hint |
| Session.FormatHintOnlyForJson | core/core.go:120-123 | Chat and ChatJSON pass the same checks with the same prompt, and the hint is "json" exactly for ChatJSON |
| Session.EmbeddingResult | core/core.go:159-171 | no model, or a model that is not an embedding model, is an error; otherwise the engine's vector or error is returned unchanged |
| Session.CapabilityGuard | core/core.go:98-101 | an embedding model refuses chat, and a generation model refuses embeddings |
| Session.Core.constructor | core/core.go:33-35 | a new session holds no model and its mutex is free |
| Session.Core.New | core/core.go:22-44 | an engine-initialisation failure is wrapped and returned; otherwise the session holds the loaded model, or the load error is returned and no session exists |
| Session.Core.Close | core/core.go:46-53 | the held engine is closed iff a model is held; the field is left as it was and the mutex is free again |
| Session.Core.Reload | core/core.go:55-77 | same name: nothing happens; unresolvable name: the error is returned and the old model stays installed and unclosed; otherwise the old engine is closed once before the load, and the session holds load's wrapper or, on failure, nothing |
| Session.Core.ChatStream | core/core.go:90-154 | a failed check returns its error and no stream; otherwise the stream is the worker trace of predict on the prepared request; nothing else changes and the mutex is free on every path |
| Session.Core.Chat | core/core.go:84-86 | chat without a format hint |
| Session.Core.ChatJSON | core/core.go:87-89 | chat with the "json" format hint |
| Session.Core.Embedding | core/core.go:156-172 | the result is EmbeddingResult for the held model; nothing else changes and the mutex is free on every path |
| Session.CloseTwice | core/core.go:46-53 | two closes close the same engine twice |
| Session.ReloadSameNameTwice | core/core.go:58-60 | after a successful reload of a name that resolves to itself, a second reload succeeds without closing or loading anything; when the model already had that name, neither reload changes the model or the engine log |

## Left out

- Goroutines, channels and the mutex's blocking are not modelled. The worker runs to completion inside `ChatStream`. The stream is everything the caller can receive; the mutex is the flag `busy`, clear on every way out.
- Context cancellation timing is a parameter: a `Schedule` gives the hand-off at which the context is done and which later sends win `select`'s random choice. The `ctx` arguments are not modelled otherwise; Reload does not use its own.
- The engine, the registry, the prompt renderer and option parsing are abstract function fields of `Env`. This covers `llm.Init`, `llm.New`, `Predict`, `Encode`, `Embedding`, `server.GetModel`, `server.ChatPrompt`, `api.DefaultOptions` and `FromMap`. Their internals are not part of this model.
- `Predict`'s own reaction to a cancelled context is folded into the fragments and the error it is given.
- `gpu.CheckVRAM` and its log line (core/core.go:26-31) are logging only.
- `server.GetManifestPath` and `filepath.Walk` are inputs. The manifests path is a `Result`, and the walk is a given sequence of entries.
  - A walk entry whose file information is missing (an lstat failure) would make walkFunc panic; such entries are not modelled.
  - Since walkFunc always returns nil, the walk itself never fails.
- Path handling covers systems without volume names and with one separator character. Windows, where `/` is accepted as a second separator, is not modelled.
- `PullModel` (core/image.go:54-66) only forwards to the registry.
- Embedding vectors are opaque sequences of reals, not float64.
- The command-line programs in cmd/ and the integration tests are not part of this model.
- Util.LoadError: classifies with the intended `errors.Is(err, llm.ErrUnsupportedFormat)`, not the swapped call of core/util.go:43. On an engine error that wraps the sentinel, is not the sentinel and does not mention a failed load, the code returns the error unchanged while the model annotates it. `Util.LoadErrorAsWritten` models the code, and `Util.LoadErrorAsWrittenDiffers` states exactly where the two differ.
- Util.Load: reports engine failures through `Util.LoadError`, so it inherits the divergence above; it is otherwise the code's `load`. `Session.Core.New` and `Session.Core.Reload` inherit it through `Util.Load`.
- Session.Core.Reload: the registry answers the same for a name throughout one call. In the code, `load` looks the name up a second time (core/util.go:32) after Reload's own lookup (core/core.go:62). If the manifest disappears in between, the old engine has been closed and Reload returns a registry error with the session empty. The model cannot reach that path: after a successful lookup, its load error is always an engine error.

## Findings

| source | as written | input that shows it | evidently intended | confidence | as-written member | corrected member |
|---|---|---|---|---|---|---|
| core/util.go:43 | `errors.Is(llm.ErrUnsupportedFormat, err)`: the arguments are swapped, so the test asks whether the engine's error is on the sentinel's chain | an engine error with the text "bad gguf" that wraps `llm.ErrUnsupportedFormat` gets no remediation hint | `errors.Is(err, llm.ErrUnsupportedFormat)`: any error that is or wraps the sentinel gets the hint | not executed; medium (most engine errors of this kind may also contain the phrase) | Util.LoadErrorAsWritten (with Util.IsIncompatibleAsWritten), shown by Util.SwappedIsMissesWrappedSentinel and Util.LoadErrorAsWrittenDiffers | Util.LoadError (with Util.IsIncompatible), related by Util.IntendedTestExtendsWritten; Util.Load uses it |
