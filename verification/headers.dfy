/**
 The response headers the coordinator sends. The Surrogate-Control header is
 modelled from the assertions its unit test makes: it stores a number of
 seconds (through `absint`), its name is `Surrogate-Control`, its value is
 `max-age=<seconds>`, and sending it writes exactly that one line. The
 Cache-Control and Surrogate-Key header classes are not part of this model:
 sending one of them is recorded as an event carrying the header's data.
 */
module Headers {
  import opened Php

  /** One header handed to the response, in the order sent. */
  datatype Sent =
    | Line(name: string, value: string)
    | CacheControlSent(seconds: Value, directive: string)
    | SurrogateKeysSent(keys: seq<string>)

  const SurrogateControlName := "Surrogate-Control"
  const MaxAgePrefix := "max-age="

  datatype SurrogateControlHeader = SurrogateControlHeader(seconds: nat)

  /** A freshly built Surrogate-Control header; the seconds pass through `absint`. */
  function NewSurrogateControl(seconds: Value): (h: SurrogateControlHeader)
    ensures seconds.Int? && seconds.i >= 0 ==> h.seconds == seconds.i
  {
    SurrogateControlHeader(Absint(seconds))
  }

  /** `get_value`: the header's value, `max-age=` followed by the decimal seconds. */
  function MaxAge(h: SurrogateControlHeader): (v: string)
    ensures |v| > |MaxAgePrefix| && v[..|MaxAgePrefix|] == MaxAgePrefix
    ensures ParseMaxAge(v) == Some(h.seconds)
  {
    var v := MaxAgePrefix + NatToString(h.seconds);
    assert v[..|MaxAgePrefix|] == MaxAgePrefix;
    assert v[|MaxAgePrefix|..] == NatToString(h.seconds);
    DigitsRoundTrip(h.seconds);
    v
  }

  /** The `name: value` line a header becomes on the wire. */
  function Render(name: string, value: string): string {
    name + ": " + value
  }

  /** `send_header`: one line, `Surrogate-Control: max-age=<seconds>`, appended to what was sent. */
  function SendSurrogateControl(h: SurrogateControlHeader, out: seq<Sent>): (r: seq<Sent>)
    ensures |r| == |out| + 1 && r[..|out|] == out
    ensures r[|out|].Line? && r[|out|].name == SurrogateControlName
    ensures ParseMaxAge(r[|out|].value) == Some(h.seconds)
  {
    out + [Line(SurrogateControlName, MaxAge(h))]
  }

  /** Reading a `max-age=<digits>` value back to its seconds; anything else is not such a value. */
  function ParseMaxAge(v: string): Option<nat> {
    if |v| > |MaxAgePrefix| && v[..|MaxAgePrefix|] == MaxAgePrefix && AllDigits(v[|MaxAgePrefix|..])
    then Some(DigitsToNat(v[|MaxAgePrefix|..]))
    else None
  }

  /** The rendered value determines the seconds: parsing it gives them back. */
  lemma MaxAgeRoundTrip(s: nat)
    ensures ParseMaxAge(MaxAge(SurrogateControlHeader(s))) == Some(s)
  {
  }

  /**
   The unit test's contract for every number of seconds: the header reports
   the seconds it was built with, is named `Surrogate-Control`, has the value
   `max-age=<s>`, and sending it writes exactly the line
   `Surrogate-Control: max-age=<s>`.
   */
  lemma SurrogateControlContract(s: nat)
    ensures NewSurrogateControl(Int(s)).seconds == s
    ensures MaxAge(NewSurrogateControl(Int(s))) == "max-age=" + NatToString(s)
    ensures var sent := SendSurrogateControl(NewSurrogateControl(Int(s)), []);
      |sent| == 1 && sent[0].Line?
      && Render(sent[0].name, sent[0].value) == "Surrogate-Control: max-age=" + NatToString(s)
  {
  }

  /** The test's own numbers: ten seconds. */
  lemma SurrogateControlTenSeconds()
    ensures var sent := SendSurrogateControl(NewSurrogateControl(Int(10)), []);
      sent == [Line("Surrogate-Control", "max-age=10")]
      && Render(sent[0].name, sent[0].value) == "Surrogate-Control: max-age=10"
  {
    assert NatToString(10) == "10";
    assert MaxAge(NewSurrogateControl(Int(10))) == "max-age=" + "10" == "max-age=10";
  }

  /** A cache-control directive with its seconds, as the coordinator registers it. */
  datatype CacheControlHeader = CacheControlHeader(seconds: Value, directive: string)

  const StaleWhileRevalidate := "stale-while-revalidate"
  const StaleIfError := "stale-if-error"

  /** `send_header` of a cache-control header: one event carrying its seconds and directive. */
  function SendCacheControlHeader(h: CacheControlHeader, out: seq<Sent>): seq<Sent> {
    out + [CacheControlSent(h.seconds, h.directive)]
  }
}
