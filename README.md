# zaperr in Dafny

A model of the zaperr package (`error.go`). The package attaches structured log fields to a Go
`error` as the error travels up a call stack. Later it renders the error as a structured log
object for the zap logger. The model covers these parts, written as Dafny datatypes and functions:

- the error values: a base error, the pkg/errors message wrap (text `msg + ": " + cause`), and the
  `zaperr{source, fields, message}` struct;
- the constructors `New`, `Wrap` and `WithFields`;
- the text `Error()` and the cause accessors `Cause`/`Unwrap`;
- the rendering rules `MarshalLogObject`, `ToField` and `ToNamedField`;
- the `Wrapper` helper, which adds a fixed field set to every call.

Files:

- `zaperr.dfy`, module `Zaperr`. A nil `error` is `None`. An error is one of:
  - `Base` (from `errors.New`, `errors.Errorf` or any foreign error);
  - `Wrapped` (a pkg/errors wrap);
  - `Zap` (a `zaperr`).

  A field is a small datatype with a key and a value kind. The module also defines:
  - `ErrorText`: the text an error renders as.
  - `Root`: the error where walking `Cause` ends.
  - `LoggedFields`: the user fields that appear anywhere in an error's log object, outermost layer
    first.
  - `Valid`: the shape that `New`, `WithFields` and both versions of `Wrap` keep. A `zaperr`
    without fields of its own has no message, and its source is not a `zaperr`.

  `MarshalLogObject` is a method with the source's loop. It is proved equal to the function
  `LogObject`, which is the ordered list of fields handed to the encoder.
- `wrapper.dfy`, module `ZapWrapper`: the `Wrapper` value and its methods.
- `laws.dfy`, module `ZaperrLaws`. It holds:
  - properties of chains of `Wrap`/`WithFields` calls;
  - the intended shapes: "wrap: base", the package example (error_example_test.go), and nested layers;
  - the finding below.

`Wrap` follows a three-way policy on a `zaperr`:

- no new fields: the text is rewritten in place;
- new fields on a `zaperr` without fields: the result is flat, holding exactly the new fields;
- new fields on a `zaperr` with fields: a new layer over the old error, kept intact.

`WrapAsWritten` is exactly the code. `Wrap` is the corrected version (see Findings). On a Valid
error, the two differ only when a wrap without fields is applied to a layered `zaperr`
(`WrapMatchesAsWritten`). In that case the corrected version prefixes the new message onto the
layer's own message. `ZapWrapper.Wrapper.Wrap` uses the corrected `Wrap`. On every error the
package builds (Valid), it equals the code as written whenever the wrapper or the call supplies
any fields (`WrapperWrapMatchesAsWritten`).

An empty message is handled differently across the branches. A pkg/errors wrap with an empty
message still renders `": " + cause`. A `zaperr` message that is empty renders no prefix.
`WrapAsWrittenTextByBranch` gives the text for every message, branch by branch.

Rendering has no side effects, so rendering the same error twice gives the same fields: that
follows from the model being made of functions.

## Model

| member | source | states |
|---|---|---|
| `Zaperr.New` | error.go:11-17 | yields a `zaperr` whose source is the base error with the message as its text, whose fields are exactly the given ones, and which has no message; its text is the message and its root is a base error with that text; it is Valid and logs exactly those fields |
| `Zaperr.Errorf` | error.go:19-21 | a plain base error whose text is the formatted string; it is its own root and renders as a named error, not an object |
| `Zaperr.WrapAsWritten` | error.go:23-42 | nil in, nil out, and never nil for a non-nil error; every result is a `zaperr` with the same root. On a non-`zaperr`: a new `zaperr` over the pkg/errors wrap, with exactly the given fields and no message. On a `zaperr` with no new fields: only the source changes, to the wrap of the old source. With new fields on a `zaperr` without fields: flat, exactly the new fields over the wrapped old source. With new fields on a `zaperr` with fields: a new layer whose source is the old error intact, holding the new fields and the message; old fields are never merged. Valid is preserved |
| `Zaperr.Wrap` | error.go:23-42 | the corrected policy: nil-transparent, and always a `zaperr` with the same root. A wrap without fields of a layered `zaperr` keeps the layer's source and fields and prefixes the message onto the layer's own message, so the nesting stays. With a non-empty message the text is `message + ": " + old text`. With an empty message the text is unchanged when a new layer is added or a layer with an empty message is rewritten, and gains `": "` otherwise. The logged fields are the new fields followed by everything logged before. Valid is preserved |
| `Zaperr.ErrorText` | error.go:50-55 | the text of `Error()`: never shorter than the root error's text (its partner `TextEndsWithRoot` shows the text ends with the root's text) |
| `Zaperr.WithFields` | error.go:65-77 | nil in, nil out, and never nil for a non-nil error. The result is a `zaperr` whose fields are the old own fields followed by the new ones, in argument order. On a `zaperr` the source and message are unchanged; on any other error that error becomes the source and the message is empty. Text and root never change, and Valid is preserved |
| `Zaperr.ZapErr.Cause` | error.go:57-59 | the error one step down the chain: same root, and the `zaperr`'s text is its message (when non-empty) plus `": "` prefixed onto the cause's text |
| `Zaperr.ZapErr.Unwrap` | error.go:61-63 | returns the same error as Cause |
| `Zaperr.TextEndsWithRoot` | error.go:50-55 | every layer only prefixes text, so an error's text always ends with its root error's text |
| `Zaperr.ToNamedField` | error.go:83-91 | nil gives a skip field; a `zaperr` gives an object field holding that error under the key; any other error gives a named-error field under the key; each of the three happens exactly in its own case |
| `Zaperr.ToField` | error.go:79-81 | the same three-way rendering under the key "error": skip for nil, an object holding the given `zaperr`, or a named error holding the given error |
| `Zaperr.LoggedFieldsFollowLogObject` | error.go:93-102 | the fields logged for a `zaperr` are its own fields followed, when the last entry of its log object is a nested object, by the fields logged for that object |
| `Zaperr.ZapErr.LogObject` | error.go:93-102 | the emitted fields, in order: the own fields, then `message` only when the message is non-empty, then the source as ToField renders it, which is a nested object exactly when the source is a `zaperr` |
| `Zaperr.ZapErr.MarshalLogObject` | error.go:93-102 | the loop writes the own fields in order, then the message, then the source, and produces exactly LogObject |
| `Zaperr.LoggedFields` | error.go:93-102 | a `zaperr`'s own fields come first among the fields logged for it; an error that is not a `zaperr` logs no fields |
| `Zaperr.Root` | error.go:57-63 | walking the cause chain always ends at a base error |
| `ZapWrapper.Wrapper.New` | error.go:128-130 | New over the base error with the message as its text, whose fields, and logged fields, are the call-site fields followed by the wrapper's |
| `ZapWrapper.Wrapper.Errorf` | error.go:132-134 | a `zaperr` over the formatted base error, carrying exactly the wrapper's fields |
| `ZapWrapper.Wrapper.Wrap` | error.go:136-138 | nil-transparent, and always a `zaperr` with the same root. A non-empty message prefixes the text. When no fields are passed at all, a layered `zaperr` keeps its source and fields and gets the message prefixed onto its own. With an empty message and some fields, the text is unchanged when a new layer is added and gains `": "` otherwise. The call-site fields, then the wrapper's fields, are logged before everything logged already. Valid is preserved |
| `ZapWrapper.Wrapper.WithFields` | error.go:140-142 | nil-transparent; the error's own fields, then the call-site fields, then the wrapper's. On a `zaperr` the source and message are unchanged; any other error becomes the source, with no message. Text and root never change, and Valid is preserved |
| `ZapWrapper.Wrapper.WrapperWith` | error.go:144-146 | the new wrapper's fields are the old ones followed by the new ones |
| `ZapWrapper.WrapperWith` | error.go:124-126 | a wrapper over exactly the given fields |
| `ZaperrLaws.ApplyKeepsRoot` | error.go:23-77 | after any sequence of Wrap/WithFields calls the error is non-nil, and walking its cause chain ends at the original root |
| `ZaperrLaws.ApplyText` | error.go:23-55 | after any sequence of calls with non-empty messages, the text is the wrap messages, latest first, prefixed onto the original text |
| `ZaperrLaws.WithFieldsLogged` | error.go:65-77 | WithFields logs the new fields right after the error's own fields, and everything logged before stays logged |
| `ZaperrLaws.StepKeepsEveryField` | error.go:23-77 | one Wrap or WithFields call keeps every logged field and adds its own fields |
| `ZaperrLaws.ApplyKeepsEveryField` | error.go:23-77 | after any sequence of calls, the logged fields are, as a multiset, the original ones plus every field attached; none is lost or duplicated |
| `ZaperrLaws.ApplyAsWrittenValid` | error.go:23-77 | the code as written keeps Valid through any sequence of calls. So a non-empty message always comes with fields, and the flat branch never discards a message |
| `ZaperrLaws.WrapAsWrittenText` | error.go:27-41 | as written, Wrap prefixes the message onto the text, except for a wrap without fields of a `zaperr` that has its own message |
| `ZaperrLaws.WrapAsWrittenTextByBranch` | error.go:27-55 | on every Valid error and for every message, the text as written. A wrap without fields of a `zaperr` with its own message gives `own message + ": " + message + ": " + source text`. A new layer with an empty message gives the old text. Every other case gives `message + ": " + old text`, even when the message is empty |
| `ZaperrLaws.EmptyMessageExample` | error.go:28-41 | as written, wrapping the plain error "e", or New("e") with a field, with an empty message reads ": e" |
| `ZaperrLaws.WrapperWrapMatchesAsWritten` | error.go:136-138 | when the call or the wrapper supplies any field, Wrapper.Wrap on a Valid error equals the code as written with the call-site fields followed by the wrapper's |
| `ZaperrLaws.WrapAsWrittenLogged` | error.go:27-41 | as written, Wrap logs the new fields before everything logged so far, except for a wrap without fields of a `zaperr` whose source is a `zaperr` |
| `ZaperrLaws.WrapMatchesAsWritten` | error.go:23-42 | on every Valid error, Wrap and the code as written agree, except for a wrap without fields of a layered `zaperr` |
| `ZaperrLaws.LayerRewriteAsWritten` | error.go:28-31 | as written, a wrap without fields of a layered `zaperr` puts the new message under the layer's own message. It also stops logging the fields of the `zaperr` below, which is now rendered only as text |
| `ZaperrLaws.LayeredExampleBuilt` | error.go:32-39 | "wrap" with a=1 over New("e"), then "wrap2" with b=2, builds a layer over a flat `zaperr` whose text is "wrap2: wrap: e" and whose log object holds b then a |
| `ZaperrLaws.LayerRewriteExample` | error.go:28-31 | wrapping that layered error with "wrap3" and no fields, as written, reads "wrap2: wrap3: wrap: e" and logs only b |
| `ZaperrLaws.LayerRewriteCorrected` | error.go:28-31 | the same wrap with the corrected Wrap is the same layer, with the same source and fields, whose message is "wrap3: wrap2"; it reads "wrap3: wrap2: wrap: e" and still logs b then a |
| `ZaperrLaws.DoubleWrapText` | error.go:28-31 | wrapping New("base") with "wrap" reads "wrap: base"; wrapping that again with "wrap2" reads "wrap2: wrap: base" |
| `ZaperrLaws.ExampleLogObject` | error_example_test.go:18-33 | wrapping a plain error "error" with foo=1 and bar="baz" renders as an object that logs foo, bar and then the named error "failed to execute something: error" |
| `ZaperrLaws.NestedLayers` | error.go:32-39 | two wraps with fields nest. The outer object logs its fields, its message and the inner layer as an object; the inner one logs the first fields and the wrapped base text; the lists are never flattened |
| `ZaperrLaws.WithFieldsAccumulate` | error.go:65-77 | two WithFields calls equal one call with both lists, in call order |
| `ZaperrLaws.WithFieldsTwiceLogObject` | error.go:65-77 | WithFields twice on New("e") logs all four fields in order, then the base error as text |
| `ZaperrLaws.WrapperFieldOrder` | error.go:124-146 | a wrapper made in two steps puts the call-site fields first, then the first and then the second wrapper fields |

## Findings

| source | as written | input that shows it | evidently intended | confidence | as-written member | corrected member |
|---|---|---|---|---|---|---|
| error.go:28-31 | with no new fields, Wrap replaces the `zaperr`'s source with the pkg/errors wrap of that source. It does so even when the `zaperr` is a layer, i.e. it has its own message or its source is a `zaperr` | Wrap New("e") with "wrap" and a=1, then with "wrap2" and b=2, then with "wrap3" and no fields. The text is "wrap2: wrap3: wrap: e", and a=1 is no longer in the log object: the inner `zaperr` is now under a pkg/errors wrap and is logged as text | text "wrap3: wrap2: wrap: e", with both a=1 and b=2 still logged. Rewrite the source in place only on a `zaperr` that is not a layer. On a layer, prefix the message onto the layer's own message, which keeps Valid | high for the behaviour as written, medium for the intent; not executed | `ZaperrLaws.LayerRewriteExample` | `Zaperr.Wrap` |

## Left out

- `Format` (error.go:104-118): output formatting and the pkg/errors stack trace printed with `%+v`.
- Stack capture: pkg/errors stack capture in `errors.New`/`errors.Wrap` is left out. So are the `errorVerbose` output and how the encoder writes fields. A field is a key plus a value kind, and a log object is the list of fields emitted in order. A skip field is kept in that list, although the encoder writes nothing for it.
- `Zaperr.Errorf`: does not model `fmt`-style formatting; it takes the already formatted text.
- Foreign object marshallers: an error from another package that implements the zap object-marshaller interface, and a pointer `*zaperr`, are not modelled. Only a `zaperr` value renders as an object field.
- Slice aliasing: shared backing arrays of Go `append` (error.go:70, 129, 137, 145) are not modelled. Field lists are immutable sequences.
- `error_test.go` is not part of this model. It targets another version of the API (`AppendFields`, `Fields`, a two-argument `ToField`) that error.go does not have. A `Fields(err)` extractor also does not exist in error.go; `LoggedFields` plays its role for stating properties.
- `ZapWrapper.Wrapper.Wrap`: uses the corrected `Zaperr.Wrap`. It departs from the code only in the case the finding describes, which needs an empty wrapper and no call-site fields. On every error the package builds (Valid), it matches the code everywhere else (`WrapperWrapMatchesAsWritten`).
- `Zaperr.WrapAsWritten`: follows the code for an empty message, not the intended behaviour that an empty message adds no prefix. The pkg/errors branches render `": " + old text`; only a new layer renders the old text unchanged (`WrapAsWrittenTextByBranch`, `EmptyMessageExample`).
- `Zaperr.Wrap`: keeps the code's empty-message behaviour, as its text ensures spell out. It corrects only the layer rewrite of the finding.
