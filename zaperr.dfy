/** The annotated error value `zaperr` and the free functions around it:
    constructors, text, cause accessors and the rendering of an error into
    the ordered fields of a structured log object. */
module Zaperr {

  /** A Go `error` may be nil; `None` is the nil error. */
  datatype Option<+T> = None | Some(value: T)

  /** A log field, reduced to what this package relies on: its key and the
      kind of value it carries. Encoding is left to the logging backend. */
  datatype Field =
    | Skip                                  // zap.Skip(): a field the encoder omits
    | Int(key: string, n: int)              // zap.Int
    | String(key: string, str: string)      // zap.String
    | Object(key: string, obj: Error)       // zap.Object over an object marshaller
    | NamedError(key: string, err: Error)   // zap.NamedError: the error's text

  /** The non-nil error values this package meets. */
  datatype Error =
    | Base(text: string)                    // errors.New, errors.Errorf or any foreign error
    | Wrapped(cause: Error, msg: string)    // errors.Wrap of pkg/errors: text msg + ": " + cause
    | Zap(z: ZapErr)                        // this package's zaperr

  /** The zaperr struct: the wrapped source error, the fields attached at
      this layer, and an optional message that prefixes the source's text. */
  datatype ZapErr = ZapErr(source: Error, fields: seq<Field>, message: string)
  {
    /** A zaperr is a layer over another annotated unit when it carries a
        message of its own or its source is itself a zaperr. */
    predicate Layered() {
      message != "" || source.Zap?
    }

    /** Cause returns the source: the error one step down the chain. */
    function Cause(): (r: Error)
      ensures Root(r) == Root(Zap(this))
      ensures ErrorText(Zap(this)) == if message == "" then ErrorText(r) else message + ": " + ErrorText(r)
    {
      source
    }

    /** Unwrap is Cause under the standard library's name. */
    function Unwrap(): (r: Error)
      ensures r == Cause()
    {
      Cause()
    }

    /** The fields MarshalLogObject hands to the encoder, in order: the own
        fields, then a "message" string when the message is non-empty, then
        the source rendered by ToField. */
    function LogObject(): (r: seq<Field>)
      ensures |r| == |fields| + (if message != "" then 2 else 1)
      ensures r[..|fields|] == fields
      ensures message != "" ==> r[|fields|] == String("message", message)
      ensures r[|r| - 1] == ToField(Some(source))
      ensures r[|r| - 1].Object? <==> source.Zap?
    {
      fields + (if message != "" then [String("message", message)] else []) + [ToField(Some(source))]
    }

    /** Writes the fields one by one into an initially empty encoder. */
    method MarshalLogObject() returns (enc: seq<Field>)
      ensures enc == LogObject()
    {
      enc := [];
      for i := 0 to |fields|
        invariant enc == fields[..i]
      {
        enc := enc + [fields[i]];
      }
      if message != "" {
        enc := enc + [String("message", message)];
      }
      enc := enc + [ToField(Some(source))];
    }
  }

  /** The error at the bottom of the cause chain, where walking Cause ends. */
  function Root(e: Error): (r: Error)
    ensures r.Base?
  {
    match e
    case Base(_) => e
    case Wrapped(c, _) => Root(c)
    case Zap(z) => Root(z.source)
  }

  /** Error(): a zaperr with a message renders as message + ": " + source
      text, otherwise as the source text; a pkg/errors wrap always puts
      ": " between its message and its cause. */
  function ErrorText(e: Error): (r: string)
    ensures |Root(e).text| <= |r|
  {
    match e
    case Base(t) => t
    case Wrapped(c, m) => m + ": " + ErrorText(c)
    case Zap(z) => if z.message != "" then z.message + ": " + ErrorText(z.source) else ErrorText(z.source)
  }

  /** Every layer only prefixes the text, so it always ends with the root
      error's text. */
  lemma {:induction false} TextEndsWithRoot(e: Error)
    ensures |Root(e).text| <= |ErrorText(e)|
    ensures ErrorText(e)[|ErrorText(e)| - |Root(e).text|..] == Root(e).text
  {
    match e
    case Base(_) =>
    case Wrapped(c, m) => TextEndsWithRoot(c);
    case Zap(z) => TextEndsWithRoot(z.source);
  }

  /** The shape every error built by New, Wrap and WithFields keeps: a
      zaperr without fields of its own is a single flat layer, with no
      message and a source that is not a zaperr. In particular a non-empty
      message always comes with a non-empty field list. */
  predicate Valid(e: Error) {
    match e
    case Base(_) => true
    case Wrapped(c, _) => Valid(c)
    case Zap(z) => (z.fields == [] ==> z.message == "" && !z.source.Zap?) && Valid(z.source)
  }

  /** The user fields that appear in the structured log object of `e`,
      outermost layer first: each zaperr contributes its own fields, and
      its source's when the source is rendered as a nested object. Any
      other error is rendered as text and contributes none. */
  function LoggedFields(e: Error): (r: seq<Field>)
    ensures e.Zap? ==> |e.z.fields| <= |r| && r[..|e.z.fields|] == e.z.fields
    ensures !e.Zap? ==> r == []
  {
    match e
    case Zap(z) => z.fields + LoggedFields(z.source)
    case _ => []
  }

  /** LoggedFields is what MarshalLogObject emits: a zaperr's own fields,
      then, when the last entry of its log object is a nested object, the
      fields logged for that object. */
  lemma LoggedFieldsFollowLogObject(z: ZapErr)
    ensures var last := z.LogObject()[|z.LogObject()| - 1];
      LoggedFields(Zap(z)) == z.fields + (if last.Object? then LoggedFields(last.obj) else [])
  {
  }

  /** The fields a value carries at its own layer: a zaperr's fields, none
      for any other error. */
  function OwnFields(e: Error): seq<Field> {
    if e.Zap? then e.z.fields else []
  }

  /** ToNamedField: nil gives a skip field; a zaperr, being an object
      marshaller, gives an object field; any other error a named error. */
  function ToNamedField(key: string, err: Option<Error>): (r: Field)
    ensures r.Skip? <==> err.None?
    ensures r.Object? <==> err.Some? && err.value.Zap?
    ensures r.NamedError? <==> err.Some? && !err.value.Zap?
    ensures r.Object? ==> r.key == key && r.obj == err.value
    ensures r.NamedError? ==> r.key == key && r.err == err.value
  {
    match err
    case None => Skip
    case Some(Zap(_)) => Object(key, err.value)
    case Some(e) => NamedError(key, e)
  }

  /** ToField is ToNamedField under the key "error". */
  function ToField(err: Option<Error>): (r: Field)
    ensures r.Skip? <==> err.None?
    ensures !r.Skip? ==> r.key == "error"
    ensures r.Object? <==> err.Some? && err.value.Zap?
    ensures r.NamedError? <==> err.Some? && !err.value.Zap?
    ensures r.Object? ==> r.obj == err.value
    ensures r.NamedError? ==> r.err == err.value
  {
    ToNamedField("error", err)
  }

  /** New: a zaperr over a fresh base error with the given fields. */
  function New(message: string, fields: seq<Field>): (r: Error)
    ensures r.Zap? && r.z.source == Base(message) && r.z.fields == fields && r.z.message == ""
    ensures ErrorText(r) == message && Root(r) == Base(message)
    ensures LoggedFields(r) == fields
    ensures Valid(r)
  {
    Zap(ZapErr(Base(message), fields, ""))
  }

  /** Errorf, with the formatting left out: a base error whose text is the
      already formatted string. */
  function Errorf(formatted: string): (r: Error)
    ensures ErrorText(r) == formatted && Root(r) == r
    ensures ToField(Some(r)).NamedError?
  {
    Base(formatted)
  }

  /** WithFields: nil stays nil; a zaperr gets the fields appended after its
      own, source and message unchanged; any other error becomes the source
      of a new zaperr with exactly these fields and no message. The text
      never changes. */
  function WithFields(err: Option<Error>, fields: seq<Field>): (r: Option<Error>)
    ensures r.Some? <==> err.Some?
    ensures r.Some? ==> r.value.Zap? && r.value.z.fields == OwnFields(err.value) + fields
    ensures r.Some? && err.value.Zap? ==>
      r.value.z.source == err.value.z.source && r.value.z.message == err.value.z.message
    ensures r.Some? && !err.value.Zap? ==> r.value.z.source == err.value && r.value.z.message == ""
    ensures r.Some? ==> ErrorText(r.value) == ErrorText(err.value) && Root(r.value) == Root(err.value)
    ensures r.Some? && Valid(err.value) ==> Valid(r.value)
  {
    match err
    case None => None
    case Some(Zap(z)) => Some(Zap(z.(fields := z.fields + fields)))
    case Some(e) => Some(Zap(ZapErr(e, fields, "")))
  }

  /** Wrap exactly as the code is written. On a zaperr it follows a three-way
      policy: without new fields only the source changes, to the pkg/errors
      wrap of the old source; with new fields on a zaperr that has none, the
      result is flat, carrying exactly the new fields over the wrapped old
      source; with new fields on a zaperr that has fields, the result is a
      new layer whose source is the old error intact. Old fields are never
      merged into the new list. */
  function WrapAsWritten(err: Option<Error>, message: string, fields: seq<Field>): (r: Option<Error>)
    ensures r.Some? <==> err.Some?
    ensures r.Some? ==> r.value.Zap? && Root(r.value) == Root(err.value)
    ensures r.Some? && !err.value.Zap? ==>
      r.value.z == ZapErr(Wrapped(err.value, message), fields, "")
    ensures r.Some? && err.value.Zap? && fields == [] ==>
      r.value.z.source == Wrapped(err.value.z.source, message) &&
      r.value.z.fields == err.value.z.fields && r.value.z.message == err.value.z.message
    ensures r.Some? && err.value.Zap? && fields != [] && err.value.z.fields == [] ==>
      r.value.z == ZapErr(Wrapped(err.value.z.source, message), fields, "")
    ensures r.Some? && err.value.Zap? && fields != [] && err.value.z.fields != [] ==>
      r.value.z == ZapErr(err.value, fields, message)
    ensures r.Some? && Valid(err.value) ==> Valid(r.value)
  {
    match err
    case None => None
    case Some(Zap(z)) =>
      if fields == [] then Some(Zap(z.(source := Wrapped(z.source, message))))
      else if z.fields == [] then WithFields(Some(Wrapped(z.source, message)), fields)
      else Some(Zap(ZapErr(Zap(z), fields, message)))
    case Some(e) => WithFields(Some(Wrapped(e, message)), fields)
  }

  /** Wrap on a zaperr makes a new zaperr over the old one: with new
      fields that are kept apart from the fields already there, or over a
      layer. */
  predicate AddsLayer(e: Error, fields: seq<Field>) {
    e.Zap? && fields != [] && (e.z.fields != [] || e.z.Layered())
  }

  /** Wrap with the layer rewrite corrected: the source is rewritten in
      place only on a zaperr that is not a layer; a field-less wrap of a
      layer prefixes the message onto the layer's own message instead. The
      result's text is the message prefixed onto the old text (an empty
      message adds no prefix exactly where a zaperr message, not a
      pkg/errors wrap, carries it), every field that was logged before still
      is, after the new ones, and Valid is kept. */
  function Wrap(err: Option<Error>, message: string, fields: seq<Field>): (r: Option<Error>)
    ensures r.Some? <==> err.Some?
    ensures r.Some? ==> r.value.Zap? && Root(r.value) == Root(err.value)
    ensures r.Some? && message != "" ==> ErrorText(r.value) == message + ": " + ErrorText(err.value)
    ensures r.Some? ==>
      ErrorText(r.value) ==
        (if message == "" && (AddsLayer(err.value, fields) ||
                              (err.value.Zap? && fields == [] && err.value.z.source.Zap? && err.value.z.message == ""))
         then ErrorText(err.value) else message + ": " + ErrorText(err.value))
    ensures r.Some? && err.value.Zap? && fields == [] && err.value.z.Layered() ==>
      r.value.z.source == err.value.z.source && r.value.z.fields == err.value.z.fields &&
      r.value.z.message == (if err.value.z.message == "" then message else message + ": " + err.value.z.message)
    ensures r.Some? ==> LoggedFields(r.value) == fields + LoggedFields(err.value)
    ensures r.Some? && Valid(err.value) ==> Valid(r.value)
  {
    match err
    case None => None
    case Some(Zap(z)) =>
      if fields == [] && z.Layered() then
        Some(Zap(z.(message := if z.message == "" then message else message + ": " + z.message)))
      else if fields == [] then Some(Zap(z.(source := Wrapped(z.source, message))))
      else if z.fields == [] && !z.Layered() then WithFields(Some(Wrapped(z.source, message)), fields)
      else Some(Zap(ZapErr(Zap(z), fields, message)))
    case Some(e) => WithFields(Some(Wrapped(e, message)), fields)
  }
}
