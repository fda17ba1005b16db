/**
 * The browser-driven delivery sequencer (app/services/whatsapp_automation.py).
 *
 * The browser is a `Session` that records every call the worker makes on it
 * as an `Event` in `trace`. Whatever the page or the driver decides (whether
 * a wait finds its element, whether the QR code is showing, whether the
 * driver starts or quits cleanly) is read from `answers`, a sequence fixed in
 * advance; since the lemmas hold for every `answers`, they hold for every way
 * the page can behave. Sleeps and log lines are not events.
 *
 * Each step of the source has a specification function returning a `Run`
 * (its events, the exception it raises if any, the answers it leaves) and a
 * method proved to follow it. The properties are lemmas about the functions.
 */
module Automation {
  import opened Wrappers
  import opened Text

  // ---------------------------------------------------------------------
  // Events, failures and the session
  // ---------------------------------------------------------------------

  /** The four `WebDriverWait(...).until(...)` calls. */
  datatype Wait =
    | PageReady       // chat input or QR code present (60 s, wait_for_whatsapp_load)
    | LoggedIn        // chat input present after a QR code was seen (120 s)
    | ChatOpen        // chat input present after navigating to the chat (30 s, open_chat)
    | InputClickable  // chat input clickable (10 s, send_message_to_input)

  datatype Key = ShiftEnter | Enter

  datatype Event =
    | Launch(ok: bool)            // create_chrome_driver(), which succeeds or raises
    | Navigate(url: string)       // driver.get(url)
    | Waited(wait: Wait, found: bool)
    | QrProbe(present: bool)      // driver.find_elements for the QR canvas
    | Click                       // input_box.click()
    | Clear                       // input_box.clear()
    | Type(text: string)          // input_box.send_keys(text)
    | Press(key: Key)             // input_box.send_keys(Keys.SHIFT + Keys.ENTER) or Keys.ENTER
    | StopPoll(isSet: bool)       // stop_event.is_set()
    | Quit(ok: bool)              // driver.quit(), which succeeds or raises

  /** The exception a step raises. */
  datatype Failure = LaunchFailed | TimedOut(wait: Wait) | QuitFailed

  /** The next answer and the answers left; once the answers run out, every answer is no. */
  function Take(answers: seq<bool>): (bool, seq<bool>) {
    if answers == [] then (false, []) else (answers[0], answers[1..])
  }

  /** What a step did: its events, the exception it raised, the answers it left. */
  datatype Run = Run(events: seq<Event>, failure: Option<Failure>, rest: seq<bool>)

  /** `first` (which raised nothing) followed by `next`, started from the answers `first` left. */
  function Then(first: Run, next: Run): Run {
    Run(first.events + next.events, next.failure, next.rest)
  }

  /**
   * The browser driver and the stop event as a worker process sees them.
   * `stopAfter` is how many more times `stop_event.is_set()` answers false.
   */
  class Session {
    var trace: seq<Event>
    var answers: seq<bool>
    var stopAfter: nat

    constructor (answers: seq<bool>, stopAfter: nat)
      ensures trace == [] && this.answers == answers && this.stopAfter == stopAfter
    {
      trace := [];
      this.answers := answers;
      this.stopAfter := stopAfter;
    }

    /** How the page or the driver decides the next call (which `Do` then records). */
    method Answer() returns (b: bool)
      modifies this
      ensures (b, answers) == Take(old(answers))
      ensures trace == old(trace) && stopAfter == old(stopAfter)
    {
      var t := Take(answers);
      b, answers := t.0, t.1;
    }

    /** Records the call `e`. */
    method Do(e: Event)
      modifies this
      ensures trace == old(trace) + [e] && answers == old(answers) && stopAfter == old(stopAfter)
    {
      trace := trace + [e];
    }

    /** `stop_event.is_set()`. */
    method StopIsSet() returns (isSet: bool)
      modifies this
      ensures isSet == (old(stopAfter) == 0)
      ensures stopAfter == if isSet then 0 else old(stopAfter) - 1
      ensures trace == old(trace) + [StopPoll(isSet)] && answers == old(answers)
    {
      isSet := stopAfter == 0;
      if !isSet {
        stopAfter := stopAfter - 1;
      }
      trace := trace + [StopPoll(isSet)];
    }
  }

  // ---------------------------------------------------------------------
  // The deep link (open_chat)
  // ---------------------------------------------------------------------

  const SendUrl := "https://web.whatsapp.com/send?phone="

  /** `message.replace('\n', '%0A').replace(' ', '%20')`. */
  function EncodeSeed(text: string): (r: string)
    ensures ' ' !in r && '\n' !in r
  {
    Replace(Replace(text, "\n", "%0A"), " ", "%20")
  }

  /** The chat URL that seeds the input box with `text`. */
  function ChatUrl(phone: string, text: string): string {
    SendUrl + phone + "&text=" + EncodeSeed(text)
  }

  /** How one character appears in the seed: newline and space escaped, everything else as is. */
  function Escape(c: char): string {
    if c == '\n' then "%0A" else if c == ' ' then "%20" else [c]
  }

  function EscapeEach(text: string): string {
    if text == [] then "" else Escape(text[0]) + EscapeEach(text[1..])
  }

  /** The two `replace` passes escape each character independently. */
  lemma {:induction false} EncodeSeedPerCharacter(text: string)
    ensures EncodeSeed(text) == EscapeEach(text)
  {
    if text != [] {
      EncodeSeedPerCharacter(text[1..]);
      ReplaceCharUnfold(text, '\n', "%0A");
      var head := if text[0] == '\n' then "%0A" else [text[0]];
      var tail := Replace(text[1..], "\n", "%0A");
      ReplaceCharAppend(head, tail, ' ', "%20");
      if text[0] == '\n' {
        ReplaceAbsent(head, ' ', "%20");
      } else {
        ReplaceCharUnfold(head, ' ', "%20");
        assert head[1..] == [];
      }
    }
  }

  /** Undoes `%0A` and `%20`. */
  function DecodeSeed(s: string): string
    decreases |s|
  {
    if s == [] then ""
    else if |s| >= 3 && s[..3] == "%0A" then "\n" + DecodeSeed(s[3..])
    else if |s| >= 3 && s[..3] == "%20" then " " + DecodeSeed(s[3..])
    else [s[0]] + DecodeSeed(s[1..])
  }

  /** A seed without `%` is recovered from the URL; `%` itself is not escaped. */
  lemma {:induction false} SeedRoundTrip(text: string)
    requires '%' !in text
    ensures DecodeSeed(EncodeSeed(text)) == text
  {
    EncodeSeedPerCharacter(text);
    EscapedDecodes(text);
  }

  lemma {:induction false} EscapedDecodes(text: string)
    requires '%' !in text
    ensures DecodeSeed(EscapeEach(text)) == text
  {
    if text != [] {
      EscapedDecodes(text[1..]);
      var e := EscapeEach(text);
      assert e == Escape(text[0]) + EscapeEach(text[1..]);
      if text[0] == '\n' || text[0] == ' ' {
        assert e[..3] == Escape(text[0]) && e[3..] == EscapeEach(text[1..]);
      } else {
        assert e[0] == text[0] && e[1..] == EscapeEach(text[1..]);
      }
    }
  }

  /** Because `%` is not escaped, two different seeds can give the same URL. */
  lemma SeedNotInjective()
    ensures EncodeSeed("%20") == EncodeSeed(" ") && "%20" != " "
  {
    EncodeSeedPerCharacter("%20");
    EncodeSeedPerCharacter(" ");
  }

  // ---------------------------------------------------------------------
  // wait_for_whatsapp_load and open_chat
  // ---------------------------------------------------------------------

  /**
   * wait_for_whatsapp_load: wait for the chat input or the QR code; if the QR
   * code is showing, wait again for the chat input. A timeout is re-raised.
   */
  function LoadRun(answers: seq<bool>): Run {
    var (ready, a1) := Take(answers);
    if !ready then Run([Waited(PageReady, false)], Some(TimedOut(PageReady)), a1)
    else
      var (qr, a2) := Take(a1);
      if !qr then Run([Waited(PageReady, true), QrProbe(false)], None, a2)
      else
        var (login, a3) := Take(a2);
        Run([Waited(PageReady, true), QrProbe(true), Waited(LoggedIn, login)],
            if login then None else Some(TimedOut(LoggedIn)), a3)
  }

  /** open_chat: navigate to the deep link, wait for the page, then for the chat input. */
  function OpenChatRun(phone: string, text: string, answers: seq<bool>): Run {
    var nav := [Navigate(ChatUrl(phone, text))];
    var load := LoadRun(answers);
    if load.failure.Some? then Run(nav + load.events, load.failure, load.rest)
    else
      var (open, a) := Take(load.rest);
      Run(nav + load.events + [Waited(ChatOpen, open)], if open then None else Some(TimedOut(ChatOpen)), a)
  }

  /** The second wait happens exactly when the QR code was seen, and a timeout is raised as is. */
  lemma LoadBranches(answers: seq<bool>)
    ensures var r := LoadRun(answers);
      && (Waited(LoggedIn, true) in r.events || Waited(LoggedIn, false) in r.events) == (QrProbe(true) in r.events)
      && (r.failure.None? <==> r.events[|r.events| - 1] in {QrProbe(false), Waited(LoggedIn, true)})
      && (r.failure.Some? ==> r.failure == Some(TimedOut(r.events[|r.events| - 1].wait)) && !r.events[|r.events| - 1].found)
  {
  }

  method WaitForWhatsappLoad(s: Session) returns (failure: Option<Failure>)
    modifies s
    ensures var r := LoadRun(old(s.answers));
      s.trace == old(s.trace) + r.events && s.answers == r.rest && failure == r.failure
    ensures s.stopAfter == old(s.stopAfter)
  {
    var ready := s.Answer();
    s.Do(Waited(PageReady, ready));
    if !ready {
      return Some(TimedOut(PageReady));
    }
    var qr := s.Answer();
    s.Do(QrProbe(qr));
    if qr {
      var login := s.Answer();
      s.Do(Waited(LoggedIn, login));
      if !login {
        return Some(TimedOut(LoggedIn));
      }
    }
    failure := None;
  }

  method OpenChat(s: Session, phone: string, text: string) returns (failure: Option<Failure>)
    modifies s
    ensures var r := OpenChatRun(phone, text, old(s.answers));
      s.trace == old(s.trace) + r.events && s.answers == r.rest && failure == r.failure
    ensures s.stopAfter == old(s.stopAfter)
  {
    s.Do(Navigate(ChatUrl(phone, text)));
    failure := WaitForWhatsappLoad(s);
    if failure.Some? {
      return;
    }
    var open := s.Answer();
    s.Do(Waited(ChatOpen, open));
    if !open {
      failure := Some(TimedOut(ChatOpen));
    }
  }

  // ---------------------------------------------------------------------
  // send_message_to_input: the keystroke plan
  // ---------------------------------------------------------------------

  /** The keys for line `i`: the line itself unless blank, then SHIFT+ENTER unless it is the last. */
  function LineKeys(lines: seq<string>, i: nat): seq<Event>
    requires i < |lines|
  {
    (if IsBlank(lines[i]) then [] else [Type(lines[i])]) +
    (if i < |lines| - 1 then [Press(ShiftEnter)] else [])
  }

  /** The keys for the first `n` lines. */
  function KeysUpTo(lines: seq<string>, n: nat): seq<Event>
    requires n <= |lines|
  {
    if n == 0 then [] else KeysUpTo(lines, n - 1) + LineKeys(lines, n - 1)
  }

  lemma KeysUpToNext(lines: seq<string>, i: nat)
    requires i < |lines|
    ensures KeysUpTo(lines, i + 1) == KeysUpTo(lines, i) + LineKeys(lines, i)
  {
  }

  lemma KeysUpToZero(lines: seq<string>)
    ensures KeysUpTo(lines, 0) == []
  {
  }

  /** The keys for all the lines, then the single ENTER. */
  function LinesPlan(lines: seq<string>): seq<Event> {
    KeysUpTo(lines, |lines|) + [Press(Enter)]
  }

  /** Every keystroke after the input box is cleared. */
  function KeyPlan(message: string): seq<Event> {
    LinesPlan(Split(message, '\n'))
  }

  /** send_message_to_input: wait for the input, click, clear, then the keystroke plan. */
  function TypeRun(message: string, answers: seq<bool>): Run {
    var (found, a) := Take(answers);
    if !found then Run([Waited(InputClickable, false)], Some(TimedOut(InputClickable)), a)
    else Run([Waited(InputClickable, true), Click, Clear] + KeyPlan(message), None, a)
  }

  /** One pass of the `for i, line in enumerate(lines)` loop of send_message_to_input. */
  method TypeLine(s: Session, lines: seq<string>, i: nat)
    requires i < |lines|
    modifies s
    ensures s.trace == old(s.trace) + LineKeys(lines, i)
    ensures s.answers == old(s.answers) && s.stopAfter == old(s.stopAfter)
  {
    ghost var typed := if IsBlank(lines[i]) then [] else [Type(lines[i])];
    if !IsBlank(lines[i]) {
      s.Do(Type(lines[i]));
    }
    ghost var mid := s.trace;
    assert mid == old(s.trace) + typed;
    if i < |lines| - 1 {
      s.Do(Press(ShiftEnter));
    }
  }

  /** The whole loop: every line in order. */
  method TypeLines(s: Session, lines: seq<string>)
    modifies s
    ensures s.trace == old(s.trace) + KeysUpTo(lines, |lines|)
    ensures s.answers == old(s.answers) && s.stopAfter == old(s.stopAfter)
  {
    for i := 0 to |lines|
      invariant s.trace == old(s.trace) + KeysUpTo(lines, i)
      invariant s.answers == old(s.answers) && s.stopAfter == old(s.stopAfter)
    {
      ghost var keys := KeysUpTo(lines, i);
      TypeLine(s, lines, i);
      KeysUpToNext(lines, i);
      AppendAssoc(old(s.trace), keys, LineKeys(lines, i));
    }
  }

  method SendMessageToInput(s: Session, message: string) returns (failure: Option<Failure>)
    modifies s
    ensures var r := TypeRun(message, old(s.answers));
      s.trace == old(s.trace) + r.events && s.answers == r.rest && failure == r.failure
    ensures s.stopAfter == old(s.stopAfter)
  {
    var found := s.Answer();
    s.Do(Waited(InputClickable, found));
    if !found {
      return Some(TimedOut(InputClickable));
    }
    s.Do(Click);
    s.Do(Clear);
    TypeLines(s, Split(message, '\n'));
    s.Do(Press(Enter));
    failure := None;
  }

  /** The texts typed, in order. */
  function TypedTexts(events: seq<Event>): seq<string> {
    if events == [] then []
    else (if events[0].Type? then [events[0].text] else []) + TypedTexts(events[1..])
  }

  lemma {:induction false} TypedTextsAppend(a: seq<Event>, b: seq<Event>)
    ensures TypedTexts(a + b) == TypedTexts(a) + TypedTexts(b)
  {
    if a == [] {
      assert a + b == b;
    } else {
      var ab := a + b;
      assert ab[0] == a[0] && ab[1..] == a[1..] + b;
      TypedTextsAppend(a[1..], b);
      var head: seq<string> := if a[0].Type? then [a[0].text] else [];
      assert TypedTexts(ab) == head + (TypedTexts(a[1..]) + TypedTexts(b));
      AppendAssoc(head, TypedTexts(a[1..]), TypedTexts(b));
    }
  }

  predicate NotBlank(line: string) {
    !IsBlank(line)
  }

  /** How many times `e` occurs in `events`. */
  function Count(events: seq<Event>, e: Event): nat {
    if events == [] then 0 else (if events[0] == e then 1 else 0) + Count(events[1..], e)
  }

  lemma {:induction false} CountAppend(a: seq<Event>, b: seq<Event>, e: Event)
    ensures Count(a + b, e) == Count(a, e) + Count(b, e)
  {
    if a == [] {
      assert a + b == b;
    } else {
      assert Count(a + b, e) == (if a[0] == e then 1 else 0) + Count(a[1..] + b, e) by {
        assert (a + b)[0] == a[0] && (a + b)[1..] == a[1..] + b;
      }
      CountAppend(a[1..], b, e);
    }
  }

  /** Keys without an ENTER commit nothing. */
  lemma {:induction false} NoEnterQuiet(box: string, events: seq<Event>)
    requires Count(events, Press(Enter)) == 0
    ensures Commits(box, events) == []
    decreases events
  {
    if events != [] {
      NoEnterQuiet(Apply(box, events[0]), events[1..]);
    }
  }

  /** The SHIFT+ENTER and ENTER keystrokes among the keys for one line. */
  lemma LineKeysPresses(lines: seq<string>, i: nat)
    requires i < |lines|
    ensures Count(LineKeys(lines, i), Press(ShiftEnter)) == if i < |lines| - 1 then 1 else 0
    ensures Count(LineKeys(lines, i), Press(Enter)) == 0
  {
    var typed := if IsBlank(lines[i]) then [] else [Type(lines[i])];
    var brk := if i < |lines| - 1 then [Press(ShiftEnter)] else [];
    assert LineKeys(lines, i) == typed + brk;
    CountAppend(typed, brk, Press(ShiftEnter));
    CountAppend(typed, brk, Press(Enter));
  }

  lemma {:induction false} KeysUpToPresses(lines: seq<string>, n: nat)
    requires 1 <= |lines| && n <= |lines|
    ensures Count(KeysUpTo(lines, n), Press(ShiftEnter)) == if n == |lines| then n - 1 else n
    ensures Count(KeysUpTo(lines, n), Press(Enter)) == 0
  {
    if n > 0 {
      KeysUpToPresses(lines, n - 1);
      KeysUpToPressesNext(lines, n, n - 1);
    } else {
      KeysUpToZero(lines);
    }
  }

  lemma KeysUpToPressesNext(lines: seq<string>, n: nat, breaks: nat)
    requires 1 <= n <= |lines|
    requires Count(KeysUpTo(lines, n - 1), Press(ShiftEnter)) == breaks
    requires Count(KeysUpTo(lines, n - 1), Press(Enter)) == 0
    ensures Count(KeysUpTo(lines, n), Press(ShiftEnter)) == breaks + (if n < |lines| then 1 else 0)
    ensures Count(KeysUpTo(lines, n), Press(Enter)) == 0
  {
    KeysUpToNext(lines, n - 1);
    LineKeysPresses(lines, n - 1);
    CountAppend(KeysUpTo(lines, n - 1), LineKeys(lines, n - 1), Press(ShiftEnter));
    CountAppend(KeysUpTo(lines, n - 1), LineKeys(lines, n - 1), Press(Enter));
  }

  lemma {:induction false} KeysUpToTyped(lines: seq<string>, n: nat)
    requires n <= |lines|
    ensures TypedTexts(KeysUpTo(lines, n)) == Filter(NotBlank, lines[..n])
  {
    if n > 0 {
      KeysUpToTyped(lines, n - 1);
      KeysUpToTypedNext(lines, n, Filter(NotBlank, lines[..n - 1]));
      FilterPrefixNext(lines, n);
    } else {
      assert lines[..0] == [];
      KeysUpToZero(lines);
    }
  }

  lemma KeysUpToTypedNext(lines: seq<string>, n: nat, typed: seq<string>)
    requires 1 <= n <= |lines| && TypedTexts(KeysUpTo(lines, n - 1)) == typed
    ensures TypedTexts(KeysUpTo(lines, n)) == typed + Filter(NotBlank, [lines[n - 1]])
  {
    KeysUpToNext(lines, n - 1);
    TypedTextsAppend(KeysUpTo(lines, n - 1), LineKeys(lines, n - 1));
    LineKeysTyped(lines, n - 1);
  }

  lemma FilterPrefixNext(lines: seq<string>, n: nat)
    requires 1 <= n <= |lines|
    ensures Filter(NotBlank, lines[..n]) == Filter(NotBlank, lines[..n - 1]) + Filter(NotBlank, [lines[n - 1]])
  {
    assert lines[..n] == lines[..n - 1] + [lines[n - 1]];
    FilterAppend(NotBlank, lines[..n - 1], [lines[n - 1]]);
  }

  lemma LineKeysTyped(lines: seq<string>, i: nat)
    requires i < |lines|
    ensures TypedTexts(LineKeys(lines, i)) == Filter(NotBlank, [lines[i]])
  {
    var typed := if IsBlank(lines[i]) then [] else [Type(lines[i])];
    var brk := if i < |lines| - 1 then [Press(ShiftEnter)] else [];
    assert LineKeys(lines, i) == typed + brk;
    TypedTextsAppend(typed, brk);
    assert TypedTexts(brk) == [];
    assert [lines[i]][1..] == [];
  }

  lemma LinesPlanShape(lines: seq<string>)
    requires |lines| >= 1
    ensures var plan := LinesPlan(lines);
      && Count(plan, Press(ShiftEnter)) == |lines| - 1
      && Count(plan, Press(Enter)) == 1 && plan[|plan| - 1] == Press(Enter)
      && TypedTexts(plan) == Filter(NotBlank, lines)
  {
    var keys := KeysUpTo(lines, |lines|);
    KeysUpToPresses(lines, |lines|);
    CountAppend(keys, [Press(Enter)], Press(ShiftEnter));
    CountAppend(keys, [Press(Enter)], Press(Enter));
    assert TypedTexts(keys) == Filter(NotBlank, lines) by {
      KeysUpToTyped(lines, |lines|);
      assert lines[..|lines|] == lines;
    }
    assert TypedTexts(LinesPlan(lines)) == TypedTexts(keys) by {
      TypedTextsAppend(keys, [Press(Enter)]);
      assert TypedTexts([Press(Enter)]) == [];
    }
  }

  /**
   * A message that splits on newlines into k pieces gets k - 1 SHIFT+ENTER
   * keystrokes and exactly one ENTER, the last keystroke; the texts typed are
   * the pieces that are not blank, unstripped and in order.
   */
  lemma KeyPlanShape(message: string)
    ensures var lines := Split(message, '\n'); var plan := KeyPlan(message);
      && Count(plan, Press(ShiftEnter)) == |lines| - 1
      && Count(plan, Press(Enter)) == 1 && plan[|plan| - 1] == Press(Enter)
      && TypedTexts(plan) == Filter(NotBlank, lines)
  {
    LinesPlanShape(Split(message, '\n'));
  }

  lemma SplitExample()
    ensures Split("A\nB\nC", '\n') == ["A", "B", "C"]
  {
    var m := "A\nB\nC";
    assert m[1..] == "\nB\nC" && m[2..] == "B\nC" && m[3..] == "\nC" && m[4..] == "C" && m[5..] == "";
    assert m[0] == 'A' && m[2] == 'B' && m[4] == 'C';
    assert [m[0]] + "" == "A" && [m[2]] + "" == "B" && [m[4]] + "" == "C";
    assert [""][1..] == [] && ["", "C"][1..] == ["C"] && ["", "B", "C"][1..] == ["B", "C"];
    assert Split(m[5..], '\n') == [""];
    assert Split(m[4..], '\n') == ["C"];
    assert Split(m[3..], '\n') == ["", "C"];
    assert Split(m[2..], '\n') == ["B", "C"];
    assert Split(m[1..], '\n') == ["", "B", "C"];
  }

  /** Three lines: each typed, separated by SHIFT+ENTER, sent by one ENTER. */
  lemma KeyPlanExample()
    ensures KeyPlan("A\nB\nC") == [Type("A"), Press(ShiftEnter), Type("B"), Press(ShiftEnter), Type("C"), Press(Enter)]
  {
    var lines := Split("A\nB\nC", '\n');
    SplitExample();
    assert !IsBlank("A") && !IsBlank("B") && !IsBlank("C");
    assert KeysUpTo(lines, 1) == [Type("A"), Press(ShiftEnter)] by {
      KeysUpToZero(lines);
    }
    assert KeysUpTo(lines, 2) == [Type("A"), Press(ShiftEnter), Type("B"), Press(ShiftEnter)];
  }

  // ---------------------------------------------------------------------
  // What the chat input holds and what ENTER sends
  // ---------------------------------------------------------------------

  /** The effect of one event on the contents of the chat input. */
  function Apply(box: string, e: Event): string {
    match e
    case Clear => ""
    case Type(t) => box + t
    case Press(ShiftEnter) => box + "\n"
    case Press(Enter) => ""
    case _ => box
  }

  /** The contents of the chat input after `events`. */
  function BoxAfter(box: string, events: seq<Event>): string
    decreases events
  {
    if events == [] then box else BoxAfter(Apply(box, events[0]), events[1..])
  }

  /** The texts each ENTER commits, in order. */
  function Commits(box: string, events: seq<Event>): seq<string>
    decreases events
  {
    if events == [] then []
    else (if events[0] == Press(Enter) then [box] else []) + Commits(Apply(box, events[0]), events[1..])
  }

  lemma {:induction false} BoxAfterAppend(box: string, a: seq<Event>, b: seq<Event>)
    ensures BoxAfter(box, a + b) == BoxAfter(BoxAfter(box, a), b)
    decreases a
  {
    if a == [] {
      assert a + b == b;
    } else {
      var ab := a + b;
      assert ab[0] == a[0] && ab[1..] == a[1..] + b;
      BoxAfterAppend(Apply(box, a[0]), a[1..], b);
    }
  }

  lemma {:induction false} CommitsAppend(box: string, a: seq<Event>, b: seq<Event>)
    ensures Commits(box, a + b) == Commits(box, a) + Commits(BoxAfter(box, a), b)
    decreases a
  {
    if a == [] {
      assert a + b == b;
    } else {
      var ab := a + b;
      var next := Apply(box, a[0]);
      var c := if a[0] == Press(Enter) then [box] else [];
      assert Commits(box, ab) == c + Commits(next, a[1..] + b) by {
        assert ab[0] == a[0] && ab[1..] == a[1..] + b;
      }
      CommitsAppend(next, a[1..], b);
      assert BoxAfter(box, a) == BoxAfter(next, a[1..]);
      AppendAssoc(c, Commits(next, a[1..]), Commits(BoxAfter(next, a[1..]), b));
    }
  }

  /** Replaying `a + b` is replaying `a`, then `b` from where `a` left the input. */
  lemma ReplayAppend(box: string, a: seq<Event>, b: seq<Event>)
    ensures BoxAfter(box, a + b) == BoxAfter(BoxAfter(box, a), b)
    ensures Commits(box, a + b) == Commits(box, a) + Commits(BoxAfter(box, a), b)
  {
    BoxAfterAppend(box, a, b);
    CommitsAppend(box, a, b);
  }

  /** Events that neither change the chat input nor commit it. */
  predicate Quiet(events: seq<Event>) {
    forall i :: 0 <= i < |events| ==> !(events[i].Clear? || events[i].Type? || events[i].Press?)
  }

  lemma {:induction false} QuietReplay(box: string, events: seq<Event>)
    requires Quiet(events)
    ensures BoxAfter(box, events) == box && Commits(box, events) == []
  {
    if events != [] {
      QuietReplay(box, events[1..]);
    }
  }

  /** A line as ENTER sends it from the input: a blank line is sent empty. */
  function Shown(line: string): string {
    if IsBlank(line) then "" else line
  }

  function ShownLines(lines: seq<string>): (r: seq<string>)
    ensures |r| == |lines|
  {
    seq(|lines|, i requires 0 <= i < |lines| => Shown(lines[i]))
  }

  /** The text the keystroke plan commits: the lines, blank ones emptied, joined by newlines. */
  function TypedText(message: string): string {
    Join(ShownLines(Split(message, '\n')), '\n')
  }

  /** The keys for one line append the line as shown, then a newline unless it is the last. */
  lemma LineKeysBox(lines: seq<string>, i: nat, box: string)
    requires i < |lines|
    ensures BoxAfter(box, LineKeys(lines, i)) == box + Shown(lines[i]) + Break(lines, i)
  {
    var typed := if IsBlank(lines[i]) then [] else [Type(lines[i])];
    var brk := if i < |lines| - 1 then [Press(ShiftEnter)] else [];
    assert LineKeys(lines, i) == typed + brk;
    BoxAfterAppend(box, typed, brk);
    assert BoxAfter(box, typed) == box + Shown(lines[i]);
  }

  /** The chat input after the keys for the first `n` lines: those lines as shown, each but the last followed by a newline. */
  function Rendered(lines: seq<string>, n: nat): string
    requires n <= |lines|
  {
    if n == 0 then "" else Rendered(lines, n - 1) + Shown(lines[n - 1]) + Break(lines, n - 1)
  }

  /** The newline SHIFT+ENTER puts after line `i`, unless it is the last. */
  function Break(lines: seq<string>, i: nat): string {
    if i < |lines| - 1 then "\n" else ""
  }

  lemma {:induction false} KeysUpToBox(lines: seq<string>, n: nat)
    requires n <= |lines|
    ensures BoxAfter("", KeysUpTo(lines, n)) == Rendered(lines, n)
  {
    if n > 0 {
      KeysUpToBox(lines, n - 1);
      KeysUpToBoxStep(lines, n);
    } else {
      KeysUpToBoxZero(lines);
    }
  }

  lemma KeysUpToBoxZero(lines: seq<string>)
    ensures BoxAfter("", KeysUpTo(lines, 0)) == Rendered(lines, 0)
  {
    KeysUpToZero(lines);
  }

  lemma KeysUpToBoxStep(lines: seq<string>, n: nat)
    requires 1 <= n <= |lines|
    requires BoxAfter("", KeysUpTo(lines, n - 1)) == Rendered(lines, n - 1)
    ensures BoxAfter("", KeysUpTo(lines, n)) == Rendered(lines, n)
  {
    KeysUpToBoxNext(lines, n, Rendered(lines, n - 1));
    LineKeysRendered(lines, n);
  }

  lemma LineKeysRendered(lines: seq<string>, n: nat)
    requires 1 <= n <= |lines|
    ensures BoxAfter(Rendered(lines, n - 1), LineKeys(lines, n - 1)) == Rendered(lines, n)
  {
    LineKeysBox(lines, n - 1, Rendered(lines, n - 1));
  }

  lemma KeysUpToBoxNext(lines: seq<string>, n: nat, box: string)
    requires 1 <= n <= |lines|
    requires BoxAfter("", KeysUpTo(lines, n - 1)) == box
    ensures BoxAfter("", KeysUpTo(lines, n)) == BoxAfter(box, LineKeys(lines, n - 1))
  {
    KeysUpToNext(lines, n - 1);
    BoxAfterAppend("", KeysUpTo(lines, n - 1), LineKeys(lines, n - 1));
  }

  /** Rendering the first `n` lines joins them, with a trailing newline while lines remain. */
  lemma {:induction false} RenderedJoin(lines: seq<string>, n: nat)
    requires 1 <= n <= |lines|
    ensures Rendered(lines, n) == Join(ShownLines(lines)[..n], '\n') + (if n < |lines| then "\n" else "")
  {
    if n > 1 {
      RenderedJoin(lines, n - 1);
      RenderedJoinNext(lines, n, Join(ShownLines(lines)[..n - 1], '\n'));
    } else {
      assert Rendered(lines, 0) == "";
      JoinPrefixNext(ShownLines(lines), 1);
    }
  }

  lemma RenderedJoinNext(lines: seq<string>, n: nat, joined: string)
    requires 2 <= n <= |lines|
    requires joined == Join(ShownLines(lines)[..n - 1], '\n')
    requires Rendered(lines, n - 1) == joined + "\n"
    ensures Rendered(lines, n) == Join(ShownLines(lines)[..n], '\n') + (if n < |lines| then "\n" else "")
  {
    var shown := ShownLines(lines);
    JoinPrefixNext(shown, n);
    AppendAssoc(joined, "\n", shown[n - 1]);
  }

  lemma JoinPrefixNext(parts: seq<string>, n: nat)
    requires 1 <= n <= |parts|
    ensures Join(parts[..n], '\n') == (if n == 1 then "" else Join(parts[..n - 1], '\n') + "\n") + parts[n - 1]
  {
    if n == 1 {
      assert parts[..1] == [parts[0]];
    } else {
      assert parts[..n] == parts[..n - 1] + [parts[n - 1]];
      JoinSnoc(parts[..n - 1], parts[n - 1], '\n');
      AppendAssoc(Join(parts[..n - 1], '\n'), "\n", parts[n - 1]);
    }
  }

  lemma LinesPlanCommits(lines: seq<string>, box: string)
    requires |lines| >= 1
    ensures Commits(box, [Click, Clear] + LinesPlan(lines)) == [Join(ShownLines(lines), '\n')]
    ensures BoxAfter(box, [Click, Clear] + LinesPlan(lines)) == ""
  {
    var keys := KeysUpTo(lines, |lines|);
    var typed := Join(ShownLines(lines), '\n');
    assert BoxAfter("", keys) == typed && Commits("", keys) == [] by {
      KeysUpToPresses(lines, |lines|);
      NoEnterQuiet("", keys);
      KeysUpToBox(lines, |lines|);
      RenderedJoin(lines, |lines|);
      assert ShownLines(lines)[..|lines|] == ShownLines(lines);
    }
    assert BoxAfter("", LinesPlan(lines)) == "" && Commits("", LinesPlan(lines)) == [typed] by {
      ReplayAppend("", keys, [Press(Enter)]);
    }
    assert BoxAfter(box, [Click, Clear]) == "" && Commits(box, [Click, Clear]) == [];
    ReplayAppend(box, [Click, Clear], LinesPlan(lines));
  }

  /** Clicking, clearing and then the keystroke plan commits the message exactly once. */
  lemma KeyPlanCommits(message: string, box: string)
    ensures Commits(box, [Click, Clear] + KeyPlan(message)) == [TypedText(message)]
    ensures BoxAfter(box, [Click, Clear] + KeyPlan(message)) == ""
  {
    LinesPlanCommits(Split(message, '\n'), box);
  }

  /** When no line is blank without being empty, the message is committed exactly as given. */
  lemma TypedTextExact(message: string)
    requires forall line :: line in Split(message, '\n') ==> line == "" || !IsBlank(line)
    ensures TypedText(message) == message
  {
    var lines := Split(message, '\n');
    assert ShownLines(lines) == lines;
    JoinSplit(message, '\n');
  }

  /** A single line that is not blank is committed as it is. */
  lemma TypedOneLine(text: string)
    requires '\n' !in text && !IsBlank(text)
    ensures TypedText(text) == text
  {
    SplitWithoutSeparator(text, '\n');
    TypedTextExact(text);
  }

  /** A successful TypeRun commits the message once and leaves the input empty; a failed one does nothing. */
  lemma TypeRunReplay(message: string, answers: seq<bool>, box: string)
    ensures var r := TypeRun(message, answers);
      && Commits(box, r.events) == (if r.failure.None? then [TypedText(message)] else [])
      && BoxAfter(box, r.events) == (if r.failure.None? then "" else box)
  {
    var (found, _) := Take(answers);
    if found {
      var wait, plan := [Waited(InputClickable, true)], [Click, Clear] + KeyPlan(message);
      assert TypeRun(message, answers).events == wait + plan;
      QuietReplay(box, wait);
      ReplayAppend(box, wait, plan);
      KeyPlanCommits(message, box);
    } else {
      QuietReplay(box, [Waited(InputClickable, false)]);
    }
  }

  // ---------------------------------------------------------------------
  // The three sequencers
  // ---------------------------------------------------------------------

  /** The greeting chosen from the local hour. */
  function Greeting(hour: int): string {
    if hour < 12 then "Bom dia!" else "Boa tarde!"
  }

  const MenuOption := "1"

  const TestMessage := "\U{1F9EA} This is a test message from the gas consumption system!"

  /** send_message_to_input for each text in turn, up to the first that raises. */
  function TypeAll(texts: seq<string>, answers: seq<bool>): Run
    decreases |texts|
  {
    if texts == [] then Run([], None, answers)
    else
      var first := TypeRun(texts[0], answers);
      if first.failure.Some? then first else Then(first, TypeAll(texts[1..], first.rest))
  }

  /** open_chat seeded with `seed`, then `texts` typed one after another. */
  function ChatRun(phone: string, seed: string, texts: seq<string>, answers: seq<bool>): Run {
    var open := OpenChatRun(phone, seed, answers);
    if open.failure.Some? then open else Then(open, TypeAll(texts, open.rest))
  }

  /** The `finally: if driver: driver.quit()` around a body that ran on a live driver. */
  function Teardown(body: Run, swallowQuitError: bool): Run {
    var (quit, a) := Take(body.rest);
    Run([Launch(true)] + body.events + [Quit(quit)],
        if !quit && !swallowQuitError then Some(QuitFailed) else body.failure, a)
  }

  /** The three texts of send_whatsapp_with_greeting, in order. */
  function GreetingTexts(message: string, hour: int): seq<string> {
    [Greeting(hour), MenuOption, message]
  }

  /** send_whatsapp_with_greeting: the chat seeded with the greeting, then greeting, "1" and the report. */
  function GreetingRun(phone: string, message: string, hour: int, answers: seq<bool>): Run {
    var (launched, a) := Take(answers);
    if !launched then Run([Launch(false)], Some(LaunchFailed), a)
    else Teardown(ChatRun(phone, Greeting(hour), GreetingTexts(message, hour), a), false)
  }

  /** send_simple_test_message: one message; an error from quit() is swallowed. */
  function SimpleRun(phone: string, message: string, answers: seq<bool>): Run {
    var (launched, a) := Take(answers);
    if !launched then Run([Launch(false)], Some(LaunchFailed), a)
    else Teardown(ChatRun(phone, message, [message], a), true)
  }

  /** `stop_event` polled until it is set, after `stopAfter` unset answers. */
  function Polls(stopAfter: nat): (r: seq<Event>)
    ensures |r| == stopAfter + 1 && r[stopAfter] == StopPoll(true)
    ensures forall i :: 0 <= i < stopAfter ==> r[i] == StopPoll(false)
  {
    seq(stopAfter, _ => StopPoll(false)) + [StopPoll(true)]
  }

  lemma PollsInner(stopAfter: nat)
    ensures Inner(Polls(stopAfter))
  {
    var p := Polls(stopAfter);
    forall i | 0 <= i < |p|
      ensures p[i].StopPoll?
    {
      if i < stopAfter {
        assert p[i] == StopPoll(false);
      }
    }
  }

  /** The `try` block of send_test_message after the driver exists. */
  function TestBody(phone: string, stopAfter: nat, answers: seq<bool>): Run {
    var sent := ChatRun(phone, TestMessage, [TestMessage], answers);
    if sent.failure.Some? then sent else Then(sent, Run(Polls(stopAfter), None, sent.rest))
  }

  /** send_test_message: the fixed test message, then keep the browser until the stop event. */
  function TestRun(phone: string, stopAfter: nat, answers: seq<bool>): Run {
    var (launched, a) := Take(answers);
    if !launched then Run([Launch(false)], Some(LaunchFailed), a)
    else Teardown(TestBody(phone, stopAfter, a), false)
  }

  /** Running `next` on a trace that already holds `first` gives the trace of `Then(first, next)`. */
  lemma ThenTrace(t: seq<Event>, first: Run, next: Run)
    ensures t + first.events + next.events == t + Then(first, next).events
  {
    AppendAssoc(t, first.events, next.events);
  }

  /** Launching, running `body` and quitting gives the trace of `Teardown(body, _)`. */
  lemma TeardownTrace(t: seq<Event>, body: Run, swallowQuitError: bool, quit: bool)
    requires Take(body.rest).0 == quit
    ensures t + [Launch(true)] + body.events + [Quit(quit)] == t + Teardown(body, swallowQuitError).events
  {
    AppendAssoc(t, [Launch(true)], body.events);
    AppendAssoc(t, [Launch(true)] + body.events, [Quit(quit)]);
  }

  /** A text whose TypeRun succeeded leaves the rest of TypeAll to the answers it left. */
  lemma TypeAllNext(texts: seq<string>, answers: seq<bool>)
    requires texts != [] && TypeRun(texts[0], answers).failure.None?
    ensures var first := TypeRun(texts[0], answers);
      TypeAll(texts, answers) == Then(first, TypeAll(texts[1..], first.rest))
  {
  }

  lemma TypeAllLast(text: string, answers: seq<bool>)
    ensures TypeAll([text], answers) == TypeRun(text, answers)
  {
    var r := TypeRun(text, answers);
    if r.failure.None? {
      assert [text][1..] == [];
      assert Then(r, Run([], None, r.rest)).events == r.events + [];
    }
  }

  method SendWhatsappWithGreeting(s: Session, phone: string, message: string, hour: int)
    returns (failure: Option<Failure>)
    modifies s
    ensures var r := GreetingRun(phone, message, hour, old(s.answers));
      s.trace == old(s.trace) + r.events && s.answers == r.rest && failure == r.failure
    ensures s.stopAfter == old(s.stopAfter)
  {
    var greeting := Greeting(hour);
    var launched := s.Answer();
    s.Do(Launch(launched));
    if !launched {
      return Some(LaunchFailed);
    }
    ghost var t0, a0 := s.trace, s.answers;
    ghost var texts := GreetingTexts(message, hour);
    ghost var open := OpenChatRun(phone, greeting, a0);
    failure := OpenChat(s, phone, greeting);
    if failure.None? {
      ghost var first := TypeRun(greeting, open.rest);
      failure := SendMessageToInput(s, greeting);
      if failure.None? {
        ghost var menu := TypeRun(MenuOption, first.rest);
        failure := SendMessageToInput(s, MenuOption);
        if failure.None? {
          failure := SendMessageToInput(s, message);
          TypeAllLast(message, menu.rest);
          assert texts[1..][1..] == [message];
          TypeAllNext(texts[1..], first.rest);
          ThenTrace(t0 + open.events + first.events, menu, TypeRun(message, menu.rest));
        } else {
          assert TypeAll(texts[1..], first.rest) == menu;
        }
        TypeAllNext(texts, open.rest);
        ThenTrace(t0 + open.events, first, TypeAll(texts[1..], first.rest));
      } else {
        assert TypeAll(texts, open.rest) == first;
      }
      ThenTrace(t0, open, TypeAll(texts, open.rest));
    }
    ghost var body := ChatRun(phone, greeting, texts, a0);
    assert s.trace == t0 + body.events && s.answers == body.rest && failure == body.failure;
    var quit := s.Answer();
    s.Do(Quit(quit));
    if !quit {
      failure := Some(QuitFailed);
    }
    TeardownTrace(old(s.trace), body, false, quit);
  }

  method SendSimpleTestMessage(s: Session, phone: string, message: string)
    returns (failure: Option<Failure>)
    modifies s
    ensures var r := SimpleRun(phone, message, old(s.answers));
      s.trace == old(s.trace) + r.events && s.answers == r.rest && failure == r.failure
    ensures s.stopAfter == old(s.stopAfter)
  {
    var launched := s.Answer();
    s.Do(Launch(launched));
    if !launched {
      return Some(LaunchFailed);
    }
    ghost var t0, a0 := s.trace, s.answers;
    ghost var open := OpenChatRun(phone, message, a0);
    failure := OpenChat(s, phone, message);
    if failure.None? {
      failure := SendMessageToInput(s, message);
      TypeAllLast(message, open.rest);
      ThenTrace(t0, open, TypeRun(message, open.rest));
    }
    ghost var body := ChatRun(phone, message, [message], a0);
    assert s.trace == t0 + body.events && s.answers == body.rest && failure == body.failure;
    var quit := s.Answer();
    s.Do(Quit(quit));
    TeardownTrace(old(s.trace), body, true, quit);
  }

  /** `while not stop_event.is_set()`: poll until the stop event is set. */
  method AwaitStop(s: Session)
    modifies s
    ensures s.trace == old(s.trace) + Polls(old(s.stopAfter))
    ensures s.answers == old(s.answers) && s.stopAfter == 0
  {
    ghost var n := s.stopAfter;
    var isSet := s.StopIsSet();
    while !isSet
      invariant s.stopAfter <= n && (isSet ==> s.stopAfter == 0)
      invariant s.trace == old(s.trace) + seq(n - s.stopAfter, _ => StopPoll(false)) + (if isSet then [StopPoll(true)] else [])
      invariant s.answers == old(s.answers)
      decreases s.stopAfter + (if isSet then 0 else 1)
    {
      isSet := s.StopIsSet();
    }
  }

  method SendTestMessage(s: Session, phone: string) returns (failure: Option<Failure>)
    modifies s
    ensures var r := TestRun(phone, old(s.stopAfter), old(s.answers));
      s.trace == old(s.trace) + r.events && s.answers == r.rest && failure == r.failure
  {
    var launched := s.Answer();
    s.Do(Launch(launched));
    if !launched {
      return Some(LaunchFailed);
    }
    ghost var t0, a0 := s.trace, s.answers;
    ghost var open := OpenChatRun(phone, TestMessage, a0);
    failure := OpenChat(s, phone, TestMessage);
    if failure.None? {
      failure := SendMessageToInput(s, TestMessage);
      TypeAllLast(TestMessage, open.rest);
      ThenTrace(t0, open, TypeRun(TestMessage, open.rest));
      if failure.None? {
        ghost var sent := ChatRun(phone, TestMessage, [TestMessage], a0);
        AwaitStop(s);
        ThenTrace(t0, sent, Run(Polls(old(s.stopAfter)), None, sent.rest));
      }
    }
    ghost var body := TestBody(phone, old(s.stopAfter), a0);
    assert s.trace == t0 + body.events && s.answers == body.rest && failure == body.failure;
    var quit := s.Answer();
    s.Do(Quit(quit));
    if !quit {
      failure := Some(QuitFailed);
    }
    TeardownTrace(old(s.trace), body, false, quit);
  }

  // ---------------------------------------------------------------------
  // What the sequencers promise
  // ---------------------------------------------------------------------

  /** Events of a step that runs on a live driver: it neither launches nor quits one. */
  predicate Inner(events: seq<Event>) {
    forall i :: 0 <= i < |events| ==> !events[i].Launch? && !events[i].Quit?
  }

  /** A step that fails stops at the wait that timed out. */
  predicate StopsAtTimeout(r: Run) {
    r.failure.Some? ==>
      r.events != [] && r.failure.value.TimedOut? && r.events[|r.events| - 1] == Waited(r.failure.value.wait, false)
  }

  lemma LoadShape(answers: seq<bool>)
    ensures var r := LoadRun(answers); Inner(r.events) && Quiet(r.events) && StopsAtTimeout(r)
  {
  }

  lemma OpenChatShape(phone: string, text: string, answers: seq<bool>)
    ensures var r := OpenChatRun(phone, text, answers); Inner(r.events) && Quiet(r.events) && StopsAtTimeout(r)
  {
    LoadShape(answers);
  }

  lemma TypeRunShape(message: string, answers: seq<bool>)
    ensures var r := TypeRun(message, answers); Inner(r.events) && StopsAtTimeout(r)
  {
    var plan := KeyPlan(message);
    assert Inner(plan) by {
      var lines := Split(message, '\n');
      assert Inner(KeysUpTo(lines, |lines|)) by {
        KeysInner(lines, |lines|);
      }
    }
  }

  lemma {:induction false} KeysInner(lines: seq<string>, n: nat)
    requires n <= |lines|
    ensures Inner(KeysUpTo(lines, n))
  {
    if n > 0 {
      KeysInner(lines, n - 1);
      KeysUpToNext(lines, n - 1);
      var line := LineKeys(lines, n - 1);
      assert forall i :: 0 <= i < |line| ==> line[i].Type? || line[i].Press?;
    }
  }

  /** `first` then `next`: both inner gives inner; the failure, if any, is the one `next` stops at. */
  lemma ThenShape(first: Run, next: Run)
    requires Inner(first.events) && Inner(next.events) && StopsAtTimeout(next)
    ensures Inner(Then(first, next).events) && StopsAtTimeout(Then(first, next))
  {
    var e := Then(first, next).events;
    assert forall i :: |first.events| <= i < |e| ==> e[i] == next.events[i - |first.events|];
  }

  lemma {:induction false} TypeAllShape(texts: seq<string>, answers: seq<bool>)
    ensures var r := TypeAll(texts, answers); Inner(r.events) && StopsAtTimeout(r)
    decreases |texts|
  {
    if texts != [] {
      var first := TypeRun(texts[0], answers);
      TypeRunShape(texts[0], answers);
      if first.failure.None? {
        TypeAllShape(texts[1..], first.rest);
        ThenShape(first, TypeAll(texts[1..], first.rest));
      }
    }
  }

  lemma ChatRunShape(phone: string, seed: string, texts: seq<string>, answers: seq<bool>)
    ensures var r := ChatRun(phone, seed, texts, answers); Inner(r.events) && StopsAtTimeout(r)
  {
    var open := OpenChatRun(phone, seed, answers);
    OpenChatShape(phone, seed, answers);
    if open.failure.None? {
      TypeAllShape(texts, open.rest);
      ThenShape(open, TypeAll(texts, open.rest));
    }
  }

  lemma TestBodyShape(phone: string, stopAfter: nat, answers: seq<bool>)
    ensures var b := TestBody(phone, stopAfter, answers); Inner(b.events) && StopsAtTimeout(b)
    ensures var b := TestBody(phone, stopAfter, answers); b.failure.None? ==> b.events[|b.events| - 1] == StopPoll(true)
  {
    var sent := ChatRun(phone, TestMessage, [TestMessage], answers);
    ChatRunShape(phone, TestMessage, [TestMessage], answers);
    if sent.failure.None? {
      PollsInner(stopAfter);
      ThenShape(sent, Run(Polls(stopAfter), None, sent.rest));
    }
  }

  /**
   * The `finally` clause: a driver that was created is quit exactly once, as
   * the last event; a failed quit is raised unless swallowed, and otherwise
   * the body's own outcome stands, a timeout right after its failed wait.
   */
  lemma TeardownShape(body: Run, swallowQuitError: bool)
    requires Inner(body.events) && StopsAtTimeout(body)
    ensures var r := Teardown(body, swallowQuitError); var e := r.events; var last := e[|e| - 1];
      && e[0] == Launch(true) && last.Quit?
      && (forall i :: 0 < i < |e| - 1 ==> !e[i].Launch? && !e[i].Quit?)
      && (r.failure == Some(QuitFailed) <==> !last.ok && !swallowQuitError)
      && (r.failure.Some? && r.failure != Some(QuitFailed) ==> e[|e| - 2] == Waited(r.failure.value.wait, false))
      && (last.ok || swallowQuitError ==> r.failure == body.failure)
      && (body.events != [] ==> e[|e| - 2] == body.events[|body.events| - 1])
  {
    var e := Teardown(body, swallowQuitError).events;
    assert forall i :: 0 < i < |e| - 1 ==> e[i] == body.events[i - 1];
  }

  /**
   * send_whatsapp_with_greeting launches the browser first; when that fails
   * nothing else happens, otherwise the browser is quit exactly once, last.
   */
  lemma GreetingQuitsOnce(phone: string, message: string, hour: int, answers: seq<bool>)
    ensures var r := GreetingRun(phone, message, hour, answers); var e := r.events;
      && e[0].Launch?
      && (!e[0].ok ==> e == [Launch(false)] && r.failure == Some(LaunchFailed))
      && (e[0].ok ==> e[|e| - 1].Quit? && forall i :: 0 < i < |e| - 1 ==> !e[i].Launch? && !e[i].Quit?)
      && (e[0].ok && r.failure.Some? && r.failure != Some(QuitFailed) ==>
            r.failure.value.TimedOut? && e[|e| - 2] == Waited(r.failure.value.wait, false))
  {
    var (launched, a) := Take(answers);
    if launched {
      ChatRunShape(phone, Greeting(hour), GreetingTexts(message, hour), a);
      TeardownShape(ChatRun(phone, Greeting(hour), GreetingTexts(message, hour), a), false);
    }
  }

  /** send_simple_test_message never raises for a failed quit. */
  lemma SimpleQuitsOnce(phone: string, message: string, answers: seq<bool>)
    ensures var r := SimpleRun(phone, message, answers); var e := r.events;
      && e[0].Launch?
      && (!e[0].ok ==> e == [Launch(false)] && r.failure == Some(LaunchFailed))
      && (e[0].ok ==> e[|e| - 1].Quit? && forall i :: 0 < i < |e| - 1 ==> !e[i].Launch? && !e[i].Quit?)
      && r.failure != Some(QuitFailed)
  {
    var (launched, a) := Take(answers);
    if launched {
      ChatRunShape(phone, message, [message], a);
      TeardownShape(ChatRun(phone, message, [message], a), true);
    }
  }

  /** send_test_message quits once, after the stop event was seen set, when nothing failed. */
  lemma TestQuitsOnce(phone: string, stopAfter: nat, answers: seq<bool>)
    ensures var r := TestRun(phone, stopAfter, answers); var e := r.events;
      && e[0].Launch?
      && (!e[0].ok ==> e == [Launch(false)] && r.failure == Some(LaunchFailed))
      && (e[0].ok ==> e[|e| - 1].Quit? && forall i :: 0 < i < |e| - 1 ==> !e[i].Launch? && !e[i].Quit?)
      && (r.failure.None? ==> e[|e| - 2] == StopPoll(true))
  {
    var (launched, a) := Take(answers);
    if launched {
      var body := TestBody(phone, stopAfter, a);
      TestBodyShape(phone, stopAfter, a);
      TeardownShape(body, false);
    }
  }

  /** Each text's TypedText, in order. */
  function TypedAll(texts: seq<string>): (r: seq<string>)
    ensures |r| == |texts|
  {
    if texts == [] then [] else [TypedText(texts[0])] + TypedAll(texts[1..])
  }

  /**
   * Typing texts one after another commits them in order, each exactly once;
   * a run that stops at a timeout has committed a prefix of them.
   */
  lemma {:induction false} TypeAllCommits(texts: seq<string>, answers: seq<bool>, box: string)
    ensures var r := TypeAll(texts, answers);
      && Commits(box, r.events) <= TypedAll(texts)
      && (r.failure.None? ==> Commits(box, r.events) == TypedAll(texts))
    decreases |texts|
  {
    if texts != [] {
      var first := TypeRun(texts[0], answers);
      TypeRunReplay(texts[0], answers, box);
      if first.failure.None? {
        var rest := TypeAll(texts[1..], first.rest);
        TypeAllCommits(texts[1..], first.rest, "");
        ReplayAppend(box, first.events, rest.events);
      }
    }
  }

  /** What open_chat and the texts after it commit: the texts, or a prefix of them. */
  lemma ChatRunCommits(phone: string, seed: string, texts: seq<string>, answers: seq<bool>, box: string)
    ensures var r := ChatRun(phone, seed, texts, answers);
      && Commits(box, r.events) <= TypedAll(texts)
      && (r.failure.None? ==> Commits(box, r.events) == TypedAll(texts))
  {
    var open := OpenChatRun(phone, seed, answers);
    OpenChatShape(phone, seed, answers);
    QuietReplay(box, open.events);
    if open.failure.None? {
      TypeAllCommits(texts, open.rest, box);
      ReplayAppend(box, open.events, TypeAll(texts, open.rest).events);
    }
  }

  /** Launching and quitting commit nothing: a whole run commits what its body commits. */
  lemma TeardownCommits(body: Run, swallowQuitError: bool)
    ensures Commits("", Teardown(body, swallowQuitError).events) == Commits("", body.events)
  {
    var quit := Take(body.rest).0;
    ReplayAppend("", [Launch(true)] + body.events, [Quit(quit)]);
    ReplayAppend("", [Launch(true)], body.events);
    QuietReplay(BoxAfter("", [Launch(true)] + body.events), [Quit(quit)]);
  }

  /** The fixed greetings and the menu option arrive exactly as written. */
  lemma FixedTextsTyped(hour: int)
    ensures TypedText(Greeting(hour)) == Greeting(hour)
    ensures TypedText(MenuOption) == MenuOption
  {
    assert !IsSpace(Greeting(hour)[0]) && !IsSpace('1');
    assert LStrip(Greeting(hour)) == Greeting(hour);
    assert LStrip(MenuOption) == MenuOption;
    TypedOneLine(Greeting(hour));
    TypedOneLine(MenuOption);
  }

  lemma GreetingTyped(message: string, hour: int)
    ensures TypedAll(GreetingTexts(message, hour)) ==
      [if hour < 12 then "Bom dia!" else "Boa tarde!", "1", TypedText(message)]
  {
    var texts := GreetingTexts(message, hour);
    FixedTextsTyped(hour);
    assert [message][1..] == [] && [MenuOption, message][1..] == [message] && texts[1..] == [MenuOption, message];
    assert TypedAll([message]) == [TypedText(message)];
    assert TypedAll([MenuOption, message]) == [TypedText(MenuOption)] + TypedAll([message]);
  }

  /**
   * What ENTER sends from the input in send_whatsapp_with_greeting: "Bom dia!"
   * before noon and "Boa tarde!" from noon on, then "1", then the report; a
   * run that fails part-way has sent a prefix of these, in this order.
   */
  lemma GreetingCommits(phone: string, message: string, hour: int, answers: seq<bool>)
    ensures var r := GreetingRun(phone, message, hour, answers);
      var all := [if hour < 12 then "Bom dia!" else "Boa tarde!", "1", TypedText(message)];
      && Commits("", r.events) <= all
      && (r.failure.None? ==> Commits("", r.events) == all)
  {
    var (launched, a) := Take(answers);
    if launched {
      var texts := GreetingTexts(message, hour);
      GreetingTyped(message, hour);
      ChatRunCommits(phone, Greeting(hour), texts, a, "");
      TeardownCommits(ChatRun(phone, Greeting(hour), texts, a), false);
    }
  }

  /** send_simple_test_message commits the message once when it succeeds, and nothing else ever. */
  lemma SimpleCommits(phone: string, message: string, answers: seq<bool>)
    ensures var r := SimpleRun(phone, message, answers);
      && Commits("", r.events) <= [TypedText(message)]
      && (r.failure.None? ==> Commits("", r.events) == [TypedText(message)])
  {
    var (launched, a) := Take(answers);
    if launched {
      ChatRunCommits(phone, message, [message], a, "");
      TeardownCommits(ChatRun(phone, message, [message], a), true);
    }
  }
}
