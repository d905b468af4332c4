/**
 * The page's typing controller (`Home`): the start button's guard, the
 * effect that starts typing once, the observer that beeps once per newly
 * revealed non-whitespace character, and the effect's cleanup. The typing
 * animation itself is outside the model; its only effect is the growing
 * text handed to `Observe`.
 */
module Typing {
  import opened Audio

  /** The code points `String.prototype.trim` removes (ECMAScript WhiteSpace and LineTerminator). */
  predicate IsWhitespace(c: char)
  {
    || c == '\t' || c == '\n' || c == '\U{B}' || c == '\U{C}' || c == '\r' || c == ' '
    || c == '\U{A0}' || c == '\U{1680}' || ('\U{2000}' <= c <= '\U{200A}')
    || c == '\U{2028}' || c == '\U{2029}' || c == '\U{202F}' || c == '\U{205F}'
    || c == '\U{3000}' || c == '\U{FEFF}'
  }

  /** The suffix past the previous text's length, or nothing when the text did not grow. */
  function AddedText(previous: string, current: string): string
  {
    if |current| > |previous| then current[|previous|..] else ""
  }

  function NonWhitespaceCount(s: string): nat
  {
    if s == [] then 0
    else NonWhitespaceCount(s[..|s| - 1]) + (if IsWhitespace(s[|s| - 1]) then 0 else 1)
  }

  /** The audio state after one `playBeep` per non-whitespace character of `chars`, all at context time `now`. */
  function ObserveChars(s: AudioState, chars: string, now: int): AudioState
  {
    if chars == [] then s
    else
      var s' := ObserveChars(s, chars[..|chars| - 1], now);
      if IsWhitespace(chars[|chars| - 1]) then s' else PlayBeepStep(s', now).0
  }

  lemma {:induction false} NonWhitespaceAppend(a: string, b: string)
    ensures NonWhitespaceCount(a + b) == NonWhitespaceCount(a) + NonWhitespaceCount(b)
    decreases |b|
  {
    if b == [] {
      assert a + b == a;
    } else {
      assert (a + b)[..|a + b| - 1] == a + b[..|b| - 1];
      NonWhitespaceAppend(a, b[..|b| - 1]);
    }
  }

  /** When the new text extends the old one, the added part holds exactly the new non-whitespace characters. */
  lemma AddedTextCount(previous: string, current: string)
    requires previous <= current
    ensures NonWhitespaceCount(AddedText(previous, current))
         == NonWhitespaceCount(current) - NonWhitespaceCount(previous)
  {
    assert current == previous + current[|previous|..];
    NonWhitespaceAppend(previous, current[|previous|..]);
  }

  /** Each text of the series extends the one before it, starting from `previous`. */
  predicate Grows(previous: string, texts: seq<string>)
  {
    && (|texts| > 0 ==> previous <= texts[0])
    && (forall i :: 0 <= i < |texts| - 1 ==> texts[i] <= texts[i + 1])
  }

  /** The `playBeep` calls a series of observer callbacks makes, starting from `previous`. */
  function RequestsOver(previous: string, texts: seq<string>): nat
    decreases |texts|
  {
    if texts == [] then 0
    else NonWhitespaceCount(AddedText(previous, texts[0])) + RequestsOver(texts[0], texts[1..])
  }

  /**
   * Over a growing series of revealed texts, the beep requests add up to
   * the non-whitespace characters revealed: none are skipped and none are
   * requested twice.
   */
  lemma {:induction false} RevealChain(previous: string, texts: seq<string>)
    requires Grows(previous, texts)
    ensures RequestsOver(previous, texts)
         == NonWhitespaceCount(if texts == [] then previous else texts[|texts| - 1]) - NonWhitespaceCount(previous)
    decreases |texts|
  {
    if texts != [] {
      AddedTextCount(previous, texts[0]);
      assert Grows(texts[0], texts[1..]) by {
        forall i | 0 <= i < |texts[1..]| - 1 ensures texts[1..][i] <= texts[1..][i + 1] {
          assert texts[1..][i] == texts[i + 1] && texts[1..][i + 1] == texts[i + 2];
        }
      }
      RevealChain(texts[0], texts[1..]);
      if |texts| > 1 {
        PrefixCount(texts[0], texts[|texts| - 1], texts);
      }
    }
  }

  lemma PrefixCount(first: string, last: string, texts: seq<string>)
    requires |texts| > 1 && texts[0] == first && texts[|texts| - 1] == last
    requires forall i :: 0 <= i < |texts| - 1 ==> texts[i] <= texts[i + 1]
    ensures NonWhitespaceCount(first) <= NonWhitespaceCount(last)
  {
    var i := 0;
    while i < |texts| - 1
      invariant 0 <= i <= |texts| - 1
      invariant NonWhitespaceCount(first) <= NonWhitespaceCount(texts[i])
    {
      AddedTextCount(texts[i], texts[i + 1]);
      i := i + 1;
    }
  }

  /**
   * All requests of one callback share one context time, so the callback
   * emits at most one tone: one exactly when the gate is open and some
   * added character is not whitespace.
   */
  lemma {:induction false} ObserveAtMostOneBeep(s: AudioState, chars: string, now: int)
    ensures ObserveChars(s, chars, now)
         == if BeepAllowed(s, now) && NonWhitespaceCount(chars) > 0
            then s.(lastBeep := now, beepsEmitted := s.beepsEmitted + 1)
            else s
  {
    if chars != [] {
      ObserveAtMostOneBeep(s, chars[..|chars| - 1], now);
    }
  }

  /**
   * The component's refs and state as one object: `hasStarted` (state),
   * `typingStarted` and `lastText` (refs), `observing` whether the
   * observer is attached. `beepRequests` counts `playBeep` calls.
   */
  class HomeController {
    const audio: TypingAudio
    const prefersReducedMotion: bool
    var hasStarted: bool
    var typingStarted: bool
    var observing: bool
    var lastText: string
    ghost var beepRequests: nat

    ghost predicate Valid()
      reads this, audio
    {
      && audio.Valid()
      && (typingStarted ==> hasStarted && !prefersReducedMotion)
      && observing == typingStarted
      && (!typingStarted ==> lastText == "")
    }

    constructor (audio: TypingAudio, prefersReducedMotion: bool)
      requires audio.Valid()
      ensures Valid()
      ensures this.audio == audio && this.prefersReducedMotion == prefersReducedMotion
      ensures !hasStarted && !typingStarted && lastText == "" && beepRequests == 0
    {
      this.audio := audio;
      this.prefersReducedMotion := prefersReducedMotion;
      hasStarted, typingStarted, observing, lastText := false, false, false, "";
      beepRequests := 0;
    }

    /** `handleStart`, then the typing effect that the new `hasStarted` enables. */
    method Start()
      requires Valid()
      modifies this, audio
      ensures Valid()
      ensures old(hasStarted) ==> unchanged(this) && unchanged(audio)
      ensures !old(hasStarted) ==>
                && hasStarted
                && audio.State() == EnableStep(old(audio.State()), audio.hasConstructor).0
                && typingStarted == !prefersReducedMotion
                && lastText == ""
                && beepRequests == old(beepRequests)
    {
      if hasStarted {
        return;
      }
      var _ := audio.EnableAudio();
      hasStarted := true;
      StartTyping();
    }

    /** The effect: start typing and attach the observer once, when typing should run. */
    method StartTyping()
      requires Valid()
      modifies this
      ensures Valid()
      ensures hasStarted == old(hasStarted) && beepRequests == old(beepRequests)
      ensures if hasStarted && !prefersReducedMotion && !old(typingStarted)
              then typingStarted && lastText == ""
              else typingStarted == old(typingStarted) && lastText == old(lastText)
    {
      var shouldType := hasStarted && !prefersReducedMotion;
      if !shouldType || typingStarted {
        return;
      }
      lastText := "";
      typingStarted := true;
      observing := true;
    }

    /**
     * The observer callback: when the text grew, one `playBeep` per
     * non-whitespace character past the previous length; then the new
     * text is remembered. Nothing happens once the observer is detached.
     */
    method Observe(currentText: string, now: int)
      requires Valid()
      modifies this, audio
      ensures Valid()
      ensures !old(observing) ==> unchanged(this) && unchanged(audio)
      ensures old(observing) ==>
                && lastText == currentText
                && beepRequests == old(beepRequests) + NonWhitespaceCount(AddedText(old(lastText), currentText))
                && audio.State() == ObserveChars(old(audio.State()), AddedText(old(lastText), currentText), now)
                && hasStarted == old(hasStarted) && typingStarted == old(typingStarted)
    {
      if !observing {
        return;
      }
      var previousText := lastText;
      if |currentText| > |previousText| {
        var added := currentText[|previousText|..];
        var i := 0;
        while i < |added|
          invariant 0 <= i <= |added|
          invariant audio.Valid()
          invariant audio.State() == ObserveChars(old(audio.State()), added[..i], now)
          invariant beepRequests == old(beepRequests) + NonWhitespaceCount(added[..i])
          invariant hasStarted == old(hasStarted) && typingStarted == old(typingStarted)
          invariant observing && lastText == previousText
        {
          assert added[..i + 1][..i] == added[..i];
          if !IsWhitespace(added[i]) {
            var _ := audio.PlayBeep(now);
            beepRequests := beepRequests + 1;
          }
          i := i + 1;
        }
        assert added[..i] == added;
      }
      lastText := currentText;
    }

    /** The effect's cleanup: detach the observer, stop typing, forget the text. */
    method Teardown()
      requires Valid()
      modifies this
      ensures Valid()
      ensures !observing && !typingStarted && lastText == ""
      ensures hasStarted == old(hasStarted) && beepRequests == old(beepRequests)
    {
      observing := false;
      lastText := "";
      typingStarted := false;
    }
  }

  /** A second start, and any observation after teardown, change nothing and emit nothing. */
  method TeardownScenario(hasConstructor: bool)
  {
    var audio := new TypingAudio(hasConstructor);
    var home := new HomeController(audio, false);
    home.Start();
    assert home.typingStarted;
    home.Observe("hi", 100);
    var beeps := audio.beepsEmitted;
    var requests := home.beepRequests;
    home.Start();
    assert audio.beepsEmitted == beeps && home.beepRequests == requests;
    home.Teardown();
    home.Observe("hi there", 500);
    assert audio.beepsEmitted == beeps && home.beepRequests == requests;
  }

  /** With reduced motion, starting never begins typing, so no character is ever beeped. */
  method ReducedMotionScenario(hasConstructor: bool)
  {
    var audio := new TypingAudio(hasConstructor);
    var home := new HomeController(audio, true);
    home.Start();
    assert home.hasStarted && !home.typingStarted;
    home.Observe("hello", 100);
    assert audio.beepsEmitted == 0 && home.beepRequests == 0;
  }
}
