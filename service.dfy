/**
 * The message preparation of app/services/whatsapp_service.py: what each of
 * `send_message` and `send_test_message` hands to its worker process and
 * the dictionary it returns or the exception it raises.
 *
 * Starting the worker process is given as its outcome: the process id, or
 * the message of the exception raised while importing, creating or
 * starting it.
 */
module Service {
  import opened Wrappers
  import opened Text

  /** What the greeting worker receives when nothing but blanks survive the ASCII filter. */
  const Fallback: AsciiText := "Gas consumption data message"

  const SentStatus: string := "sent"
  const GreetingStarted: string := "WhatsApp automation started successfully"
  const TestStarted: string := "WhatsApp test started successfully"
  const SendFailed: string := "Failed to send WhatsApp: "
  const TestFailed: string := "Failed to send test WhatsApp: "

  /** The dictionary both methods return: status, message and process id. */
  datatype Reply = Reply(status: string, message: string, pid: int)

  /** A worker was started with `worker` as its text, or the call raised `error`. */
  datatype Dispatch = Started(worker: string, reply: Reply) | Failed(error: string)

  /** The text `send_message` hands to the greeting worker. */
  function CleanMessage(message: string): string {
    var clean := AsciiOnly(message);
    if IsBlank(clean) then Fallback else clean
  }

  /** `send_message(phone_number, message)`. */
  function SendMessage(message: string, start: Result<int, string>): Dispatch {
    var worker := CleanMessage(message);
    match start
    case Ok(pid) => Started(worker, Reply(SentStatus, GreetingStarted, pid))
    case Err(e) => Failed(SendFailed + e)
  }

  /** `send_test_message(phone_number, message)`: the message goes to the worker as it is. */
  function SendTestMessage(message: string, start: Result<int, string>): Dispatch {
    match start
    case Ok(pid) => Started(message, Reply(SentStatus, TestStarted, pid))
    case Err(e) => Failed(TestFailed + e)
  }

  lemma FallbackNotBlank()
    ensures !IsBlank(Fallback)
  {
    BlankIffAllSpace(Fallback);
    assert !IsSpace(Fallback[0]);
  }

  /**
   * The greeting worker receives ASCII text that is never blank: the
   * ASCII characters of the message, in order, or the fallback exactly
   * when those are all blanks.
   */
  lemma CleanMessageSpec(message: string)
    ensures AllAscii(CleanMessage(message)) && !IsBlank(CleanMessage(message))
    ensures IsBlank(AsciiOnly(message)) ==> CleanMessage(message) == Fallback
    ensures !IsBlank(AsciiOnly(message)) ==>
      CleanMessage(message) == AsciiOnly(message) && IsSubsequence(CleanMessage(message), message)
  {
    AsciiOnlySpec(message);
    FallbackNotBlank();
  }

  /** A message that is ASCII and not blank reaches the worker unchanged. */
  lemma CleanMessageKeepsAscii(message: string)
    requires AllAscii(message) && !IsBlank(message)
    ensures CleanMessage(message) == message
  {
    AsciiOnlySpec(message);
  }

  /** Cleaning twice is cleaning once. */
  lemma CleanMessageIdempotent(message: string)
    ensures CleanMessage(CleanMessage(message)) == CleanMessage(message)
  {
    CleanMessageSpec(message);
    CleanMessageKeepsAscii(CleanMessage(message));
  }

  /**
   * `send_message` starts the greeting worker on the cleaned text and
   * reports "sent" with the process id; when starting fails it raises the
   * failure behind "Failed to send WhatsApp: ".
   */
  lemma SendMessageSpec(message: string, start: Result<int, string>)
    ensures SendMessage(message, start).Started? <==> start.Ok?
    ensures start.Ok? ==>
      var d := SendMessage(message, start);
      && AllAscii(d.worker) && !IsBlank(d.worker)
      && d.reply.status == SentStatus && d.reply.pid == start.value
    ensures start.Err? ==> SendMessage(message, start).error == SendFailed + start.error
  {
    CleanMessageSpec(message);
  }

  /** `send_test_message` hands the message over untouched, whatever it holds. */
  lemma SendTestMessageSpec(message: string, start: Result<int, string>)
    ensures SendTestMessage(message, start).Started? <==> start.Ok?
    ensures start.Ok? ==>
      var d := SendTestMessage(message, start);
      d.worker == message && d.reply.status == SentStatus && d.reply.pid == start.value
    ensures start.Err? ==> SendTestMessage(message, start).error == TestFailed + start.error
  {
  }

  /** A non-ASCII character never reaches the greeting worker, but it reaches the test worker. */
  lemma TestMessageNotCleaned()
    ensures SendTestMessage("\U{1F9EA}", Ok(1)).worker == "\U{1F9EA}"
    ensures AllAscii(SendMessage("\U{1F9EA}", Ok(1)).worker)
  {
    CleanMessageSpec("\U{1F9EA}");
  }
}
