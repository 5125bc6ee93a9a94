/** What holds across several calls: errors annotated step by step as they
    travel up a call stack, the intended shapes, and where
    the code as written departs from its own policy. */
module ZaperrLaws {
  import opened Zaperr
  import ZapWrapper

  /** One annotation made on the way up: a Wrap or a WithFields call. */
  datatype Step = WrapStep(message: string, fields: seq<Field>) | FieldsStep(fields: seq<Field>)

  /** One step, using Wrap. */
  function ApplyStep(err: Option<Error>, step: Step): Option<Error> {
    match step
    case WrapStep(m, fs) => Wrap(err, m, fs)
    case FieldsStep(fs) => WithFields(err, fs)
  }

  /** One step, using the code as written. */
  function ApplyStepAsWritten(err: Option<Error>, step: Step): Option<Error> {
    match step
    case WrapStep(m, fs) => WrapAsWritten(err, m, fs)
    case FieldsStep(fs) => WithFields(err, fs)
  }

  /** The error after the steps, in call order, using Wrap. */
  function Apply(err: Option<Error>, steps: seq<Step>): Option<Error>
    decreases |steps|
  {
    if steps == [] then err else Apply(ApplyStep(err, steps[0]), steps[1..])
  }

  /** The same, using the code as written. */
  function ApplyAsWritten(err: Option<Error>, steps: seq<Step>): Option<Error>
    decreases |steps|
  {
    if steps == [] then err else ApplyAsWritten(ApplyStepAsWritten(err, steps[0]), steps[1..])
  }

  /** The text the steps should produce: each wrap prefixes its message. */
  function TextAfter(t: string, steps: seq<Step>): string
    decreases |steps|
  {
    if steps == [] then t
    else TextAfter(if steps[0].WrapStep? then steps[0].message + ": " + t else t, steps[1..])
  }

  /** Every field the steps attach. */
  function StepFields(steps: seq<Step>): multiset<Field>
    decreases |steps|
  {
    if steps == [] then multiset{} else multiset(steps[0].fields) + StepFields(steps[1..])
  }

  /** Walking the cause chain of an annotated error, however deep, ends at
      the root error it started from. */
  lemma {:induction false} ApplyKeepsRoot(e: Error, steps: seq<Step>)
    ensures Apply(Some(e), steps).Some?
    ensures Root(Apply(Some(e), steps).value) == Root(e)
    decreases |steps|
  {
    if steps != [] {
      var next := ApplyStep(Some(e), steps[0]);
      ApplyKeepsRoot(next.value, steps[1..]);
    }
  }

  /** With non-empty messages, the text is the messages of the wraps,
      latest first, prefixed onto the original text. */
  lemma {:induction false} ApplyText(e: Error, steps: seq<Step>)
    requires forall i :: 0 <= i < |steps| && steps[i].WrapStep? ==> steps[i].message != ""
    ensures Apply(Some(e), steps).Some?
    ensures ErrorText(Apply(Some(e), steps).value) == TextAfter(ErrorText(e), steps)
    decreases |steps|
  {
    if steps != [] {
      var next := ApplyStep(Some(e), steps[0]);
      ApplyText(next.value, steps[1..]);
    }
  }

  /** WithFields puts the new fields right after the error's own ones in
      the log object; nothing logged before is lost. */
  lemma WithFieldsLogged(e: Error, fields: seq<Field>)
    ensures LoggedFields(WithFields(Some(e), fields).value) ==
            OwnFields(e) + fields + LoggedFields(e)[|OwnFields(e)|..]
  {
  }

  /** One step keeps every logged field and adds its own. */
  lemma StepKeepsEveryField(e: Error, step: Step)
    ensures ApplyStep(Some(e), step).Some?
    ensures multiset(LoggedFields(ApplyStep(Some(e), step).value)) == multiset(LoggedFields(e)) + multiset(step.fields)
  {
    if step.FieldsStep? {
      WithFieldsLogged(e, step.fields);
      var own := OwnFields(e);
      assert LoggedFields(e) == own + LoggedFields(e)[|own|..];
    }
  }

  /** No field attached on the way up is ever lost from, or duplicated in,
      the log object. */
  lemma {:induction false} ApplyKeepsEveryField(e: Error, steps: seq<Step>)
    ensures Apply(Some(e), steps).Some?
    ensures multiset(LoggedFields(Apply(Some(e), steps).value)) == multiset(LoggedFields(e)) + StepFields(steps)
    decreases |steps|
  {
    if steps != [] {
      var next := ApplyStep(Some(e), steps[0]);
      StepKeepsEveryField(e, steps[0]);
      ApplyKeepsEveryField(next.value, steps[1..]);
    }
  }

  /** The code as written keeps the shape Valid describes through any
      sequence of calls, so its flat branch never drops a message. */
  lemma {:induction false} ApplyAsWrittenValid(e: Error, steps: seq<Step>)
    requires Valid(e)
    ensures ApplyAsWritten(Some(e), steps).Some?
    ensures Valid(ApplyAsWritten(Some(e), steps).value)
    decreases |steps|
  {
    if steps != [] {
      var next := ApplyStepAsWritten(Some(e), steps[0]);
      ApplyAsWrittenValid(next.value, steps[1..]);
    }
  }

  /** As written, Wrap prefixes the message onto the text except when it
      rewrites a zaperr that has a message of its own without new fields. */
  lemma WrapAsWrittenText(e: Error, message: string, fields: seq<Field>)
    requires Valid(e) && message != ""
    requires !(fields == [] && e.Zap? && e.z.message != "")
    ensures ErrorText(WrapAsWritten(Some(e), message, fields).value) == message + ": " + ErrorText(e)
  {
  }

  /** The text the code as written gives for every message, branch by
      branch: a wrap without fields of a zaperr with its own message puts
      the new message after that message; a new layer adds no prefix for an
      empty message; every other branch goes through a pkg/errors wrap and
      adds `message + ": "`, so an empty message still adds ": ". */
  lemma WrapAsWrittenTextByBranch(e: Error, message: string, fields: seq<Field>)
    requires Valid(e)
    ensures ErrorText(WrapAsWritten(Some(e), message, fields).value) ==
      if e.Zap? && fields == [] && e.z.message != "" then
        e.z.message + ": " + message + ": " + ErrorText(e.z.source)
      else if e.Zap? && fields != [] && e.z.fields != [] && message == "" then
        ErrorText(e)
      else
        message + ": " + ErrorText(e)
  {
  }

  /** A wrap with an empty message, as written: wrapping a plain error "e"
      reads ": e", and so does wrapping New("e") with a field. */
  lemma EmptyMessageExample()
    ensures ErrorText(WrapAsWritten(Some(Base("e")), "", []).value) == ": e"
    ensures ErrorText(WrapAsWritten(Some(New("e", [Int("a", 1)])), "", []).value) == ": e"
  {
  }

  /** A wrapper that carries fields, or any call that passes some, makes
      Wrapper.Wrap behave exactly as the code as written on every error the
      package builds. */
  lemma WrapperWrapMatchesAsWritten(w: ZapWrapper.Wrapper, err: Option<Error>, message: string, fields: seq<Field>)
    requires err.Some? ==> Valid(err.value)
    requires fields + w.fields != []
    ensures w.Wrap(err, message, fields) == WrapAsWritten(err, message, fields + w.fields)
  {
    WrapMatchesAsWritten(err, message, fields + w.fields);
  }

  /** As written, Wrap logs the new fields before everything logged so far,
      except when it rewrites a zaperr whose source is a zaperr without new
      fields. */
  lemma WrapAsWrittenLogged(e: Error, message: string, fields: seq<Field>)
    requires Valid(e)
    requires !(fields == [] && e.Zap? && e.z.source.Zap?)
    ensures LoggedFields(WrapAsWritten(Some(e), message, fields).value) == fields + LoggedFields(e)
  {
  }

  /** Wrap and the code as written agree on every error the package builds,
      except for a field-less wrap of a layered zaperr. */
  lemma WrapMatchesAsWritten(err: Option<Error>, message: string, fields: seq<Field>)
    requires err.Some? ==> Valid(err.value)
    requires !(fields == [] && err.Some? && err.value.Zap? && err.value.z.Layered())
    ensures Wrap(err, message, fields) == WrapAsWritten(err, message, fields)
  {
  }

  /** As written, a field-less wrap of a layered zaperr slides the new
      message under the layer's own message, and hides the fields of the
      zaperr below: that one is now inside a pkg/errors wrap and is logged
      as text. */
  lemma LayerRewriteAsWritten(z: ZapErr, message: string)
    requires Valid(Zap(z)) && z.Layered()
    ensures var r := WrapAsWritten(Some(Zap(z)), message, []).value;
      (z.message != "" ==> ErrorText(r) == z.message + ": " + message + ": " + ErrorText(z.source)) &&
      (z.source.Zap? ==> LoggedFields(r) == z.fields && |LoggedFields(r)| == |LoggedFields(Zap(z))| - |LoggedFields(z.source)|)
  {
  }

  /** The layered error of the examples below: "wrap" with field a=1 over
      New("e"), then "wrap2" with field b=2. */
  const layered := ZapErr(Zap(ZapErr(Wrapped(Base("e"), "wrap"), [Int("a", 1)], "")), [Int("b", 2)], "wrap2")

  /** Those two wraps with fields build the layered error, whose text is
      "wrap2: wrap: e" and whose log object holds both fields. */
  lemma LayeredExampleBuilt()
    ensures WrapAsWritten(WrapAsWritten(Some(New("e", [])), "wrap", [Int("a", 1)]), "wrap2", [Int("b", 2)]) == Some(Zap(layered))
    ensures Wrap(Wrap(Some(New("e", [])), "wrap", [Int("a", 1)]), "wrap2", [Int("b", 2)]) == Some(Zap(layered))
    ensures ErrorText(Zap(layered)) == "wrap2: wrap: e"
    ensures LoggedFields(Zap(layered)) == [Int("b", 2), Int("a", 1)]
  {
    var inner := ZapErr(Wrapped(Base("e"), "wrap"), [Int("a", 1)], "");
    assert WrapAsWritten(Some(New("e", [])), "wrap", [Int("a", 1)]) == Some(Zap(inner));
    assert WrapAsWritten(Some(Zap(inner)), "wrap2", [Int("b", 2)]) == Some(Zap(layered));
    WrapMatchesAsWritten(Some(New("e", [])), "wrap", [Int("a", 1)]);
    WrapMatchesAsWritten(Some(Zap(inner)), "wrap2", [Int("b", 2)]);
  }

  /** Wrapping the layered error once more without fields, as written: the
      text reads "wrap2: wrap3: wrap: e" and the field a=1 is no longer
      logged. */
  lemma LayerRewriteExample()
    ensures ErrorText(WrapAsWritten(Some(Zap(layered)), "wrap3", []).value) == "wrap2: wrap3: wrap: e"
    ensures LoggedFields(WrapAsWritten(Some(Zap(layered)), "wrap3", []).value) == [Int("b", 2)]
  {
    var last := layered.(source := Wrapped(layered.source, "wrap3"));
    assert WrapAsWritten(Some(Zap(layered)), "wrap3", []) == Some(Zap(last));
    assert ErrorText(Zap(last)) == "wrap2: wrap3: wrap: e";
  }

  /** The same wrap with Wrap: "wrap3" goes onto the layer's own message,
      the layer keeps its source and fields, the text reads
      "wrap3: wrap2: wrap: e" and both fields are still logged. */
  lemma LayerRewriteCorrected()
    ensures Wrap(Some(Zap(layered)), "wrap3", []) == Some(Zap(layered.(message := "wrap3: wrap2")))
    ensures ErrorText(Wrap(Some(Zap(layered)), "wrap3", []).value) == "wrap3: wrap2: wrap: e"
    ensures LoggedFields(Wrap(Some(Zap(layered)), "wrap3", []).value) == [Int("b", 2), Int("a", 1)]
  {
    assert layered.Layered() && "wrap3" + ": " + layered.message == "wrap3: wrap2";
    assert Wrap(Some(Zap(layered)), "wrap3", []) == Some(Zap(layered.(message := "wrap3: wrap2")));
  }

  /** Wrapping New("base") with "wrap" reads "wrap: base"; wrapping that with
      "wrap2" reads "wrap2: wrap: base". */
  lemma DoubleWrapText()
    ensures var once := WrapAsWritten(Some(New("base", [])), "wrap", []);
      ErrorText(once.value) == "wrap: base" &&
      ErrorText(WrapAsWritten(once, "wrap2", []).value) == "wrap2: wrap: base"
  {
  }

  /** The package example: wrapping a plain error with two fields logs an
      object holding those fields and then the wrapped text under "error". */
  lemma ExampleLogObject()
    ensures var err := WrapAsWritten(Some(Base("error")), "failed to execute something", [Int("foo", 1), String("bar", "baz")]);
      var cause := Wrapped(Base("error"), "failed to execute something");
      ToField(err) == Object("error", err.value) &&
      err.value.z.LogObject() == [Int("foo", 1), String("bar", "baz"), NamedError("error", cause)] &&
      ErrorText(cause) == "failed to execute something: error"
  {
  }

  /** Two wraps with fields nest: the outer object logs its own fields, its
      message and the inner layer as a nested object that logs the first
      fields and the wrapped base text. The two field lists are never
      flattened into one. */
  lemma NestedLayers(base: string, m1: string, a: seq<Field>, m2: string, b: seq<Field>)
    requires a != [] && b != [] && m2 != ""
    ensures var inner := WrapAsWritten(Some(New(base, [])), m1, a).value;
      var outer := WrapAsWritten(Some(inner), m2, b).value;
      outer.z.LogObject() == b + [String("message", m2), Object("error", inner)] &&
      inner.z.LogObject() == a + [NamedError("error", Wrapped(Base(base), m1))] &&
      ErrorText(outer) == m2 + ": " + m1 + ": " + base
  {
  }

  /** Two WithFields calls attach their fields in call order, as one call
      with both lists would. */
  lemma WithFieldsAccumulate(err: Option<Error>, a: seq<Field>, b: seq<Field>)
    ensures WithFields(WithFields(err, a), b) == WithFields(err, a + b)
  {
    if err.Some? && err.value.Zap? {
      assert err.value.z.fields + a + b == err.value.z.fields + (a + b);
    }
  }

  /** Applying WithFields twice to New("e") logs all four fields in order,
      then the base error as text. */
  lemma WithFieldsTwiceLogObject(f1: Field, f2: Field, f3: Field, f4: Field)
    ensures var err := WithFields(WithFields(Some(New("e", [])), [f1, f2]), [f3, f4]).value;
      err.z.LogObject() == [f1, f2, f3, f4, NamedError("error", Base("e"))]
  {
  }

  /** The fields of a wrapper built in two steps come after the call-site
      fields, in the order the wrappers were made. */
  lemma WrapperFieldOrder(a: seq<Field>, b: seq<Field>, call: seq<Field>, message: string)
    ensures ZapWrapper.WrapperWith(a).WrapperWith(b).New(message, call).z.fields == call + a + b
  {
  }
}
