/**
 * app/controllers/slack/events_controller.rb with the channel list of
 * config/initializers/slack.rb: the Slack Events API endpoint. The
 * signature check is the Slack client library's `verify!`, whose verdict
 * is the parameter `signatureValid`; `perform_later` is modelled by the
 * list of jobs the request enqueues.
 */
module SlackEvents {
  import opened Common
  import Job = SlackUploadJob

  /** The `event` object of an event_callback, as far as the controller and the job read it. */
  datatype EventParams = EventParams(
    eventType: Option<string>,
    channel: Option<string>,
    ts: string,
    user: Option<string>,
    files: Option<seq<Job.SlackFile>>)

  datatype Payload = Payload(payloadType: Option<string>, challenge: Option<string>, event: Option<EventParams>)

  /**
   * 401 {"error":"Invalid signature"}; the challenge echoed as JSON; an
   * empty 200; or the 500 of calling `[]` on a missing event.
   */
  datatype Reply = Unauthorized | ChallengeEcho(challenge: Option<string>) | HeadOk | ServerError

  /** `ENV.fetch("CDN_CHANNELS", "").split(",").map(&:strip)`. */
  function CdnChannels(env: string): (channels: seq<string>)
    ensures |channels| <= |RubySplit(env, ",")|
    ensures forall i :: 0 <= i < |channels| ==> channels[i] == RubyStrip(RubySplit(env, ",")[i])
  {
    var pieces := RubySplit(env, ",");
    seq(|pieces|, i requires 0 <= i < |pieces| => RubyStrip(pieces[i]))
  }

  /** `monitored_channel?`: a nil channel is in no list. */
  predicate Monitored(channels: seq<string>, channel: Option<string>)
  {
    channel.Some? && channel.value in channels
  }

  /** Rails `present?` on the files array: given and not empty. */
  predicate FilesPresent(files: Option<seq<Job.SlackFile>>)
  {
    files.Some? && |files.value| > 0
  }

  /** The condition under which a message event is handed to the upload job. */
  predicate Wanted(e: EventParams, channels: seq<string>)
  {
    e.eventType == Some("message") && FilesPresent(e.files) && Monitored(channels, e.channel)
  }

  /** `event.to_unsafe_h` as the job reads it. */
  function JobEvent(e: EventParams): Job.Event
    requires e.channel.Some?
  {
    Job.Event(e.channel.value, e.ts, e.user, e.files)
  }

  /** `verify_slack_signature` then `create`: the reply and the jobs enqueued. */
  function Handle(signatureValid: bool, p: Payload, channels: seq<string>): (r: (Reply, seq<Job.Event>))
    ensures !signatureValid ==> r == (Unauthorized, [])
    ensures |r.1| <= 1
    ensures |r.1| == 1 <==> signatureValid && p.payloadType == Some("event_callback") && p.event.Some?
                            && Wanted(p.event.value, channels)
    ensures |r.1| == 1 ==> r.0 == HeadOk && r.1[0] == JobEvent(p.event.value)
    ensures signatureValid && p.payloadType == Some("url_verification") ==> r == (ChallengeEcho(p.challenge), [])
    ensures signatureValid && p.payloadType == Some("event_callback") && p.event.None? ==> r == (ServerError, [])
    ensures signatureValid && p.payloadType != Some("url_verification") && p.payloadType != Some("event_callback")
            ==> r == (HeadOk, [])
  {
    if !signatureValid then (Unauthorized, [])
    else if p.payloadType == Some("url_verification") then (ChallengeEcho(p.challenge), [])
    else if p.payloadType == Some("event_callback") then
      match p.event
      case None => (ServerError, [])
      case Some(e) => if Wanted(e, channels) then (HeadOk, [JobEvent(e)]) else (HeadOk, [])
    else (HeadOk, [])
  }

  /** With CDN_CHANNELS unset no channel is monitored, so nothing is ever enqueued. */
  lemma UnsetChannelsEnqueueNothing(signatureValid: bool, p: Payload)
    ensures Handle(signatureValid, p, CdnChannels("")).1 == []
  {
    assert Split("", ",") == [""];
    assert CdnChannels("") == [];
  }

  /** Every job enqueued carries an event the job itself will process: it has files. */
  lemma EnqueuedJobsHaveFiles(signatureValid: bool, p: Payload, channels: seq<string>)
    ensures forall j :: j in Handle(signatureValid, p, channels).1 ==> j.files.Some? && |j.files.value| > 0
    ensures forall j :: j in Handle(signatureValid, p, channels).1 ==> j.channel in channels
  {
  }
}
