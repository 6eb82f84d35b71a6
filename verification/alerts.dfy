/** Notification of failures, sent once per distinct text
    (`process_exception`, `errors_sent_to_telegram`). */
module Alerts {
  import opened Text

  /** Seconds between polls (`RETRY_PERIOD`). */
  const RetryPeriod := 600

  /** The sentence appended to every failure text. */
  const RetrySuffix := "Повторный запрос через " + IntText(RetryPeriod) + " секунд."

  /** The text that is logged and possibly sent for a failure message. */
  function Alert(message: string): (r: string)
    ensures |r| == |message| + |RetrySuffix|
    ensures r[..|message|] == message
    ensures IsAlert(r)
  {
    var r := message + RetrySuffix;
    assert r[|message|..] == RetrySuffix;
    r
  }

  /** A message is an alert when it carries the retry sentence at its end. */
  predicate IsAlert(m: string) {
    EndsWith(m, RetrySuffix)
  }

  lemma RetrySuffixLastTwo()
    ensures |RetrySuffix| >= 2 && LastTwo(RetrySuffix) == ('.', 'д')
  {
  }

  /** The outgoing side of the bot: the failure texts already sent and
      every message handed to the chat, in order. A failed delivery is
      logged and swallowed by the source, so the outbox records attempts. */
  datatype Channel = Channel(alerted: set<string>, outbox: seq<string>)

  /** `process_exception` without the log line and the pause: the alert
      is recorded as sent, and reaches the outbox only if that exact text
      was not sent before. */
  function ProcessException(message: string, c: Channel): (r: Channel)
    ensures Alert(message) in r.alerted
    ensures c.alerted <= r.alerted && r.alerted <= c.alerted + {Alert(message)}
    ensures Alert(message) !in c.alerted ==> r.outbox == c.outbox + [Alert(message)]
    ensures Alert(message) in c.alerted ==> r == c
  {
    var text := Alert(message);
    if text !in c.alerted then Channel(c.alerted + {text}, c.outbox + [text]) else c
  }

  /** `n` consecutive failures with the same text. */
  function Repeat(message: string, c: Channel, n: nat): Channel
    decreases n
  {
    if n == 0 then c else Repeat(message, ProcessException(message, c), n - 1)
  }

  /** However often the same failure recurs, its alert is sent at most
      once: any positive number of repetitions has the effect of one. */
  lemma {:induction false} RepeatSendsOnce(message: string, c: Channel, n: nat)
    requires n > 0
    ensures Repeat(message, c, n) == ProcessException(message, c)
    ensures |Repeat(message, c, n).outbox| <= |c.outbox| + 1
    decreases n
  {
    if n > 1 {
      var once := ProcessException(message, c);
      assert ProcessException(message, once) == once;
      RepeatSendsOnce(message, once, n - 1);
    }
  }

  /** What the chat has seen is consistent with the sent set: every sent
      alert is in the outbox, every alert in the outbox is in the sent set,
      and no alert occurs in the outbox twice. */
  ghost predicate AlertsOnce(c: Channel) {
    && (forall m :: m in c.alerted ==> m in c.outbox)
    && (forall i :: 0 <= i < |c.outbox| && IsAlert(c.outbox[i]) ==> c.outbox[i] in c.alerted)
    && (forall i, j :: 0 <= i < j < |c.outbox| && IsAlert(c.outbox[i]) ==> c.outbox[i] != c.outbox[j])
  }

  lemma ProcessExceptionKeepsAlertsOnce(message: string, c: Channel)
    requires AlertsOnce(c)
    ensures AlertsOnce(ProcessException(message, c))
  {
  }

  /** Sending messages that are not alerts keeps the alert bookkeeping. */
  lemma SendPlainKeepsAlertsOnce(c: Channel, sent: seq<string>)
    requires AlertsOnce(c)
    requires forall i :: 0 <= i < |sent| ==> !IsAlert(sent[i])
    ensures AlertsOnce(c.(outbox := c.outbox + sent))
  {
  }
}
