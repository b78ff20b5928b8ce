/**
 * The PagerDuty add-on: a Lambda handler that turns each (finding, resource)
 * pair of a Security Hub event into one PagerDuty Events API v2 "trigger"
 * request.
 */
module PagerDuty {
  import opened Wrappers
  import opened Findings

  const EventsApiUrl: string := "https://events.pagerduty.com/v2/enqueue"

  /**
   * The severity chain as written. Its third test is `severityLabel == "MEDIUM" or
   * "LOW"`, whose right operand is a non-empty string and so always truthy:
   * every severityLabel other than CRITICAL and HIGH maps to "warning", the
   * INFORMATIONAL branch and the final `pass` are never reached.
   */
  function PdSeverity(severityLabel: string): (r: Option<string>)
    ensures r.Some?
    ensures r == Some("critical") <==> severityLabel == "CRITICAL"
    ensures r == Some("error") <==> severityLabel == "HIGH"
    ensures r == Some("warning") <==> severityLabel != "CRITICAL" && severityLabel != "HIGH"
    ensures r != Some("info")
  {
    if severityLabel == "CRITICAL" then Some("critical")
    else if severityLabel == "HIGH" then Some("error")
    else if severityLabel == "MEDIUM" || StrTruthy("LOW") then Some("warning")
    else if severityLabel == "INFORMATIONAL" then Some("info")
    else None
  }

  /** INFORMATIONAL and LOW findings are paged as warnings, like MEDIUM ones. */
  lemma InformationalPagedAsWarning()
    ensures PdSeverity("INFORMATIONAL") == Some("warning")
    ensures PdSeverity("LOW") == PdSeverity("MEDIUM")
  {
  }

  datatype CustomDetails = CustomDetails(
    findingDescription: string,
    awsAccountId: string,
    securityHubSeverity: string,
    remediationText: string,
    remediationUrl: string,
    resourceType: string)

  datatype Payload = Payload(
    summary: string,
    source: string,
    severity: string,
    component: string,
    eventClass: string,
    customDetails: CustomDetails)

  datatype PdEvent = PdEvent(payload: Payload, dedupKey: string, eventAction: string)

  /** One `http.request('POST', url, headers, body)`; the body is the JSON of `event`. */
  datatype PdRequest = PdRequest(
    verb: string,
    url: string,
    contentType: string,
    routingKey: string,
    event: PdEvent)

  /** The event built for finding `f` and one of its resources `res`. */
  function MakeEvent(f: Finding, res: Resource): PdEvent
  {
    PdEvent(
      Payload(
        "AWS account " + f.awsAccountId + " has failed ElectricEye check " + f.title,
        "ElectricEye",
        PdSeverity(f.severityLabel).value,
        res.id,
        "Security Hub Finding",
        CustomDetails(f.description, f.awsAccountId, f.severityLabel,
                      f.remediationText, f.remediationUrl, res.resourceType)),
      f.id,
      "trigger")
  }

  function Post(key: string, e: PdEvent): PdRequest
  {
    PdRequest("POST", EventsApiUrl, "application/json", key, e)
  }

  /** The events of one finding, one per resource, in resource order. */
  function FindingEvents(f: Finding): seq<PdEvent>
  {
    seq(|f.resources|, j requires 0 <= j < |f.resources| => MakeEvent(f, f.resources[j]))
  }

  /** All events of a batch of findings, finding by finding. */
  function Events(fs: seq<Finding>): seq<PdEvent>
  {
    if fs == [] then [] else FindingEvents(fs[0]) + Events(fs[1..])
  }

  /** Number of (finding, resource) pairs. */
  function PairCount(fs: seq<Finding>): nat
  {
    if fs == [] then 0 else |fs[0].resources| + PairCount(fs[1..])
  }

  /** Number of pairs contributed by the findings before index i. */
  function PairsBefore(fs: seq<Finding>, i: nat): nat
    requires i <= |fs|
  {
    if i == 0 then 0 else |fs[0].resources| + PairsBefore(fs[1..], i - 1)
  }

  /** The requests for a sequence of events, one each, in order. */
  function Posts(key: string, es: seq<PdEvent>): seq<PdRequest>
  {
    if es == [] then [] else [Post(key, es[0])] + Posts(key, es[1..])
  }

  /** One event per (finding, resource) pair: a finding with no resources pages nothing. */
  lemma {:induction false} EventsCount(fs: seq<Finding>)
    ensures |Events(fs)| == PairCount(fs)
  {
    if fs != [] {
      EventsCount(fs[1..]);
    }
  }

  /** The event of resource j of finding i sits at position PairsBefore(fs, i) + j and carries those two records' fields. */
  lemma {:induction false} EventAt(fs: seq<Finding>, i: nat, j: nat)
    requires i < |fs| && j < |fs[i].resources|
    ensures PairsBefore(fs, i) + j < |Events(fs)|
    ensures var e := Events(fs)[PairsBefore(fs, i) + j];
      && e.dedupKey == fs[i].id
      && e.eventAction == "trigger"
      && e.payload.summary == "AWS account " + fs[i].awsAccountId + " has failed ElectricEye check " + fs[i].title
      && e.payload.source == "ElectricEye"
      && e.payload.severity == PdSeverity(fs[i].severityLabel).value
      && e.payload.component == fs[i].resources[j].id
      && e.payload.eventClass == "Security Hub Finding"
      && e.payload.customDetails == CustomDetails(
           fs[i].description, fs[i].awsAccountId, fs[i].severityLabel,
           fs[i].remediationText, fs[i].remediationUrl, fs[i].resources[j].resourceType)
  {
    EventPosition(fs, i, j);
  }

  lemma {:induction false} EventPosition(fs: seq<Finding>, i: nat, j: nat)
    requires i < |fs| && j < |fs[i].resources|
    ensures PairsBefore(fs, i) + j < |Events(fs)|
    ensures Events(fs)[PairsBefore(fs, i) + j] == MakeEvent(fs[i], fs[i].resources[j])
  {
    var head, rest := FindingEvents(fs[0]), Events(fs[1..]);
    assert Events(fs) == head + rest;
    if i > 0 {
      EventPosition(fs[1..], i - 1, j);
      assert fs[1..][i - 1] == fs[i];
      assert (head + rest)[|head| + PairsBefore(fs[1..], i - 1) + j] == rest[PairsBefore(fs[1..], i - 1) + j];
    } else {
      assert (head + rest)[j] == head[j];
    }
  }

  lemma {:induction false} PostsAppend(key: string, a: seq<PdEvent>, b: seq<PdEvent>)
    ensures Posts(key, a + b) == Posts(key, a) + Posts(key, b)
  {
    if a == [] {
      assert a + b == b;
    } else {
      assert (a + b)[0] == a[0] && (a + b)[1..] == a[1..] + b;
      PostsAppend(key, a[1..], b);
    }
  }

  /** One finding of the outer loop: its events follow those already sent, its requests those already made. */
  lemma HandlerStep(findings: seq<Finding>, i: nat, key: string, sent: seq<PdEvent>)
    requires i < |findings|
    requires sent + Events(findings[i..]) == Events(findings)
    ensures (sent + FindingEvents(findings[i])) + Events(findings[i + 1..]) == Events(findings)
    ensures Posts(key, sent + FindingEvents(findings[i])) == Posts(key, sent) + Posts(key, FindingEvents(findings[i]))
  {
    var fe, rest := FindingEvents(findings[i]), Events(findings[i + 1..]);
    assert findings[i..][1..] == findings[i + 1..];
    assert Events(findings[i..]) == fe + rest;
    assert sent + (fe + rest) == (sent + fe) + rest;
    PostsAppend(key, sent, fe);
  }

  /**
   * The inner loop of `lambda_handler` over one finding's resources: one
   * request per resource, or NameError at the first resource when the
   * integration key is unbound.
   */
  method FindingRequests(f: Finding, integrationKey: Option<string>)
    returns (requests: seq<PdRequest>, raised: Option<string>)
    ensures integrationKey.Some? ==> raised.None? && requests == Posts(integrationKey.value, FindingEvents(f))
    ensures integrationKey.None? ==> requests == [] && (raised.Some? <==> f.resources != [])
  {
    requests, raised := [], None;
    var j := 0;
    while j < |f.resources|
      invariant 0 <= j <= |f.resources|
      invariant integrationKey.Some? ==> requests == Posts(integrationKey.value, FindingEvents(f)[..j])
      invariant integrationKey.None? ==> requests == [] && j == 0
    {
      var ev := MakeEvent(f, f.resources[j]);
      if integrationKey.None? {
        raised := Some("NameError: pdIntegrationKey");
        return;
      }
      var headerKey := integrationKey.value;
      requests := requests + [Post(headerKey, ev)];
      assert FindingEvents(f)[..j + 1] == FindingEvents(f)[..j] + [ev];
      PostsAppend(headerKey, FindingEvents(f)[..j], [ev]);
      j := j + 1;
    }
    assert FindingEvents(f)[..j] == FindingEvents(f);
  }

  /**
   * `lambda_handler(event, context)` for the findings of `event`. The SSM
   * read of the integration key is `integrationKey`: None when `get_parameter`
   * raised, which the handler only prints. The key is then unbound, so the
   * first (finding, resource) pair raises NameError when its headers are
   * built, before any request is sent. Otherwise every pair yields one POST,
   * in order.
   */
  method LambdaHandler(findings: seq<Finding>, integrationKey: Option<string>)
    returns (requests: seq<PdRequest>, raised: Option<string>)
    ensures integrationKey.Some? ==> raised.None? && requests == Posts(integrationKey.value, Events(findings))
    ensures integrationKey.None? ==> requests == [] && (raised.Some? <==> Events(findings) != [])
  {
    requests, raised := [], None;
    ghost var key := if integrationKey.Some? then integrationKey.value else "";
    ghost var sent: seq<PdEvent> := [];
    var i := 0;
    while i < |findings|
      invariant 0 <= i <= |findings|
      invariant sent + Events(findings[i..]) == Events(findings)
      invariant requests == Posts(key, sent)
      invariant integrationKey.None? ==> sent == []
    {
      var reqs, r := FindingRequests(findings[i], integrationKey);
      HandlerStep(findings, i, key, sent);
      if r.Some? {
        raised := r;
        return;
      }
      requests := requests + reqs;
      sent := sent + FindingEvents(findings[i]);
      i := i + 1;
    }
    assert Events(findings[i..]) == [];
    assert sent == Events(findings);
  }
}
