/** Wrapper: a fixed field set merged into every New, Errorf, Wrap and
    WithFields call, after the fields given at the call site. */
module ZapWrapper {
  import opened Zaperr

  datatype Wrapper = Wrapper(fields: seq<Field>)
  {
    /** New with the call-site fields followed by the wrapper's. */
    function New(message: string, callFields: seq<Field>): (r: Error)
      ensures r.Zap? && r.z.source == Base(message) && r.z.fields == callFields + fields && r.z.message == ""
      ensures ErrorText(r) == message && Root(r) == Base(message)
      ensures LoggedFields(r) == callFields + fields
      ensures Valid(r)
    {
      Zaperr.New(message, callFields + fields)
    }

    /** Errorf with the wrapper's fields attached to the formatted error. */
    function Errorf(formatted: string): (r: Error)
      ensures r.Zap? && r.z.fields == fields && r.z.message == ""
      ensures r.z.source == Base(formatted) && ErrorText(r) == formatted
    {
      Zaperr.WithFields(Some(Zaperr.Errorf(formatted)), fields).value
    }

    /** Wrap with the call-site fields followed by the wrapper's: nil stays
        nil, the message prefixes the text, and those fields are logged
        before everything that was logged already. */
    function Wrap(err: Option<Error>, message: string, callFields: seq<Field>): (r: Option<Error>)
      ensures r.Some? <==> err.Some?
      ensures r.Some? && message != "" ==> ErrorText(r.value) == message + ": " + ErrorText(err.value)
      ensures r.Some? && message == "" && callFields + fields != [] ==>
        ErrorText(r.value) ==
          (if AddsLayer(err.value, callFields + fields) then ErrorText(err.value) else ": " + ErrorText(err.value))
      ensures r.Some? ==> r.value.Zap? && Root(r.value) == Root(err.value)
      ensures r.Some? ==> LoggedFields(r.value) == callFields + fields + LoggedFields(err.value)
      ensures r.Some? && err.value.Zap? && callFields + fields == [] && err.value.z.Layered() ==>
        r.value.z.source == err.value.z.source && r.value.z.fields == err.value.z.fields &&
        r.value.z.message == (if err.value.z.message == "" then message else message + ": " + err.value.z.message)
      ensures r.Some? && Valid(err.value) ==> Valid(r.value)
    {
      Zaperr.Wrap(err, message, callFields + fields)
    }

    /** WithFields with the call-site fields followed by the wrapper's, both
        appended after the error's own fields; everything else is kept. */
    function WithFields(err: Option<Error>, callFields: seq<Field>): (r: Option<Error>)
      ensures r.Some? <==> err.Some?
      ensures r.Some? ==> r.value.Zap? && r.value.z.fields == OwnFields(err.value) + callFields + fields
      ensures r.Some? && err.value.Zap? ==>
        r.value.z.source == err.value.z.source && r.value.z.message == err.value.z.message
      ensures r.Some? && !err.value.Zap? ==> r.value.z.source == err.value && r.value.z.message == ""
      ensures r.Some? ==> ErrorText(r.value) == ErrorText(err.value) && Root(r.value) == Root(err.value)
      ensures r.Some? && Valid(err.value) ==> Valid(r.value)
    {
      Zaperr.WithFields(err, callFields + fields)
    }

    /** A wrapper whose fields are these followed by the new ones. */
    function WrapperWith(more: seq<Field>): (r: Wrapper)
      ensures r.fields == fields + more
    {
      Wrapper(fields + more)
    }
  }

  /** A wrapper over exactly the given fields. */
  function WrapperWith(fields: seq<Field>): (r: Wrapper)
    ensures r.fields == fields
  {
    Wrapper(fields)
  }
}
