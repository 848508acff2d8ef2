/** The uptime probe route: classifies what fetching a site's URL gave into up, down or error.
    The probe itself (the request, its 10-second abort timer) is a parameter. */
module UptimeRoute {
  import opened JsValues

  /** What the probe of a URL gave: an HTTP response with its status, or a thrown error and its message. */
  datatype ProbeOutcome = Responded(status: int) | Threw(message: string)

  /** The JSON the route answers with. */
  datatype UptimeResult =
    | Error
    | Up(code: int)
    | Down(code: int)
    | Unreachable(error: string)
  {
    /** The `status` field. */
    function Status(): string {
      match this
      case Error => "error"
      case Up(_) => "up"
      case Down(_) => "down"
      case Unreachable(_) => "down"
    }
  }

  /** `res.ok`: a status in the 200–299 range. */
  predicate Ok(status: int) {
    200 <= status <= 299
  }

  /** The classification of a probe that ran. */
  function Classify(outcome: ProbeOutcome): (r: UptimeResult)
    ensures outcome.Responded? && (Ok(outcome.status) || outcome.status == 403 || outcome.status == 503)
      ==> r == Up(outcome.status)
    ensures outcome.Responded? && !(Ok(outcome.status) || outcome.status == 403 || outcome.status == 503)
      ==> r == Down(outcome.status)
    ensures outcome.Threw? ==> r == Unreachable(outcome.message)
    ensures r.Status() == "up" || r.Status() == "down"
  {
    match outcome
    case Responded(status) => if Ok(status) || status == 403 || status == 503 then Up(status) else Down(status)
    case Threw(message) => Unreachable(message)
  }

  /** `GET`: no probe without a `url` parameter; otherwise the probe's outcome, classified. */
  function Check(url: Option<string>, probe: string -> ProbeOutcome): (r: UptimeResult)
    ensures !Truthy(url) <==> r == Error
    ensures Truthy(url) ==> r == Classify(probe(url.value))
  {
    if !Truthy(url) then Error else Classify(probe(url.value))
  }

  /** Without a URL the answer does not depend on the probe: no request is made. */
  lemma MissingUrlMakesNoProbe(url: Option<string>, p1: string -> ProbeOutcome, p2: string -> ProbeOutcome)
    requires !Truthy(url)
    ensures Check(url, p1) == Check(url, p2) == Error
  {
  }

  /** A site counts as up exactly when it answered with a 2xx, 403 or 503 status, and the status is echoed. */
  lemma UpIff(url: string, probe: string -> ProbeOutcome)
    requires url != ""
    ensures Check(Some(url), probe).Status() == "up" <==>
      probe(url).Responded? && (Ok(probe(url).status) || probe(url).status == 403 || probe(url).status == 503)
    ensures probe(url).Responded? ==> Check(Some(url), probe).code == probe(url).status
  {
  }
}
