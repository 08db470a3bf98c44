/** The typing effect of the hero section (script.js): a phrase is typed one
    character per tick, then deleted one character per tick, then the next
    phrase follows. Each call of `type()` shows one frame, updates the three
    module-level variables and schedules the next call after a delay. */
module Typing {
  import opened JsRuntime

  const TypedText: seq<string> := ["AI/ML Engineer", "Full Stack Developer", "Web Enthusiast", "Open to Opportunities"]

  const TypeDelay := 90
  const DeleteDelay := 40
  const PauseBeforeDelete := 1200
  const PauseBeforeNext := 600

  /** The variables `typedIndex`, `charIndex` and `isDeleting`. */
  datatype Cursor = Cursor(typedIndex: int, charIndex: int, isDeleting: bool)

  /** What one call produces: the text shown, the next cursor and the delay
      before the next call. */
  datatype Frame = Frame(shown: string, next: Cursor, delay: nat)

  /** The bounds every reachable cursor keeps. While typing, `charIndex` runs
      from -1 (the frame right after a phrase was deleted) to the phrase length;
      while deleting, from the phrase length plus one down to 0. */
  predicate Reachable(phrases: seq<string>, c: Cursor) {
    && 0 <= c.typedIndex < |phrases|
    && var len := |phrases[c.typedIndex]|;
       if c.isDeleting then 0 <= c.charIndex <= len + 1 else -1 <= c.charIndex <= len
  }

  /** One call of `type()`, as a function of the cursor it starts from. */
  function Step(phrases: seq<string>, c: Cursor): (f: Frame)
    requires 0 <= c.typedIndex < |phrases|
    // the frame is always a prefix of the current phrase, clamped as substring clamps
    ensures IsPrefix(f.shown, phrases[c.typedIndex])
    ensures |f.shown| == Clamp(c.charIndex, 0, |phrases[c.typedIndex]|)
    ensures 0 <= f.next.typedIndex < |phrases|
    // the phrase changes exactly when deletion runs below zero, and then to the next one
    ensures f.next.typedIndex != c.typedIndex ==> c.isDeleting && c.charIndex <= 0
    ensures c.isDeleting && c.charIndex <= 0 ==> f.next == Cursor((c.typedIndex + 1) % |phrases|, c.charIndex - 1, false)
    ensures c.isDeleting && c.charIndex > 0 ==> f.next == Cursor(c.typedIndex, c.charIndex - 1, true)
    // typing moves one character forward and turns to deleting past the end
    ensures !c.isDeleting ==> f.next.typedIndex == c.typedIndex && f.next.charIndex == c.charIndex + 1
    ensures !c.isDeleting ==> (f.next.isDeleting <==> c.charIndex + 1 > |phrases[c.typedIndex]|)
    // the delays
    ensures f.delay == (if c.isDeleting then (if c.charIndex <= 0 then PauseBeforeNext else DeleteDelay)
                        else (if f.next.isDeleting then PauseBeforeDelete else TypeDelay))
  {
    var current := phrases[c.typedIndex];
    var shown := Substring(current, 0, c.charIndex);
    if c.isDeleting then
      if c.charIndex - 1 < 0 then
        Frame(shown, Cursor((c.typedIndex + 1) % |phrases|, c.charIndex - 1, false), PauseBeforeNext)
      else
        Frame(shown, Cursor(c.typedIndex, c.charIndex - 1, true), DeleteDelay)
    else
      if c.charIndex + 1 > |current| then
        Frame(shown, Cursor(c.typedIndex, c.charIndex + 1, true), PauseBeforeDelete)
      else
        Frame(shown, Cursor(c.typedIndex, c.charIndex + 1, false), TypeDelay)
  }

  /** The animation starts reachable and every call keeps it reachable, so
      `charIndex` never leaves [-1, length + 1] of the current phrase. */
  lemma StepKeepsReachable(phrases: seq<string>, c: Cursor)
    requires Reachable(phrases, c)
    ensures Reachable(phrases, Step(phrases, c).next)
    ensures var n := Step(phrases, c).next;
            -1 <= n.charIndex <= |phrases[n.typedIndex]| + 1
  {
  }

  lemma InitialReachable()
    ensures Reachable(TypedText, Cursor(0, 0, false))
  {
  }

  /** The cursor after `k` calls. */
  function Run(phrases: seq<string>, c: Cursor, k: nat): (r: Cursor)
    requires 0 <= c.typedIndex < |phrases|
    ensures 0 <= r.typedIndex < |phrases|
    decreases k
  {
    if k == 0 then c else Run(phrases, Step(phrases, c).next, k - 1)
  }

  /** Typing from `a` covers the phrase one character per call, and the call
      after the last character turns the cursor to deleting. */
  lemma {:induction false} TypingPhase(phrases: seq<string>, i: int, a: int, k: nat)
    requires 0 <= i < |phrases| && -1 <= a <= |phrases[i]| && a + k <= |phrases[i]| + 1
    ensures Run(phrases, Cursor(i, a, false), k) == Cursor(i, a + k, a + k == |phrases[i]| + 1)
    decreases k
  {
    if k > 0 {
      var n := Step(phrases, Cursor(i, a, false)).next;
      if a + 1 == |phrases[i]| + 1 {
        assert k == 1;
      } else {
        assert n == Cursor(i, a + 1, false);
        TypingPhase(phrases, i, a + 1, k - 1);
      }
    }
  }

  /** Deleting from `b` removes one character per call; the call at 0 moves
      on to the next phrase, typing from -1. */
  lemma {:induction false} DeletingPhase(phrases: seq<string>, i: int, b: int, k: nat)
    requires 0 <= i < |phrases| && 0 <= b && k <= b + 1
    ensures Run(phrases, Cursor(i, b, true), k)
         == if k == b + 1 then Cursor((i + 1) % |phrases|, -1, false) else Cursor(i, b - k, true)
    decreases k
  {
    if k > 0 {
      if b == 0 {
        assert Run(phrases, Cursor(i, b, true), k) == Run(phrases, Cursor((i + 1) % |phrases|, -1, false), k - 1);
      } else {
        DeletingPhase(phrases, i, b - 1, k - 1);
      }
    }
  }

  lemma {:induction false} RunAdd(phrases: seq<string>, c: Cursor, j: nat, k: nat)
    requires 0 <= c.typedIndex < |phrases|
    ensures Run(phrases, c, j + k) == Run(phrases, Run(phrases, c, j), k)
    decreases j
  {
    if j > 0 {
      RunAdd(phrases, Step(phrases, c).next, j - 1, k);
    }
  }

  /** One whole cycle: starting to type phrase `i` just after a deletion, after
      typing it out (|p| + 2 calls) and deleting it again (|p| + 2 calls) the
      machine starts on the next phrase, in the same position. */
  lemma PhraseCycle(phrases: seq<string>, i: int)
    requires 0 <= i < |phrases|
    ensures var len := |phrases[i]|;
            Run(phrases, Cursor(i, -1, false), len + 2) == Cursor(i, len + 1, true)
            && Run(phrases, Cursor(i, -1, false), 2 * len + 4) == Cursor((i + 1) % |phrases|, -1, false)
  {
    var len := |phrases[i]|;
    TypingPhase(phrases, i, -1, len + 2);
    DeletingPhase(phrases, i, len + 1, len + 2);
    RunAdd(phrases, Cursor(i, -1, false), len + 2, len + 2);
  }

  /** The frames of a typing phase are the prefixes of the phrase, in order. */
  lemma TypingFrames(phrases: seq<string>, i: int, k: nat)
    requires 0 <= i < |phrases| && k <= |phrases[i]|
    ensures Step(phrases, Run(phrases, Cursor(i, 0, false), k)).shown == phrases[i][..k]
  {
    TypingPhase(phrases, i, 0, k);
  }

  /** The frames of a deleting phase shrink back from the whole phrase; the
      first two both show it, because the cursor starts one past its end. */
  lemma DeletingFrames(phrases: seq<string>, i: int, k: nat)
    requires 0 <= i < |phrases| && k <= |phrases[i]| + 1
    ensures var len := |phrases[i]|;
            Step(phrases, Run(phrases, Cursor(i, len + 1, true), k)).shown == phrases[i][..Clamp(len + 1 - k, 0, len)]
  {
    DeletingPhase(phrases, i, |phrases[i]| + 1, k);
  }

  /** `type()` and the state it works on. `hasElement` says whether the page
      has the #typed element; `text` is that element's textContent. */
  class Typewriter {
    const phrases: seq<string>
    const hasElement: bool
    var typedIndex: int
    var charIndex: int
    var isDeleting: bool
    var text: string

    ghost predicate Valid()
      reads this
    {
      Reachable(phrases, Cursor(typedIndex, charIndex, isDeleting))
    }

    function State(): Cursor
      reads this
    {
      Cursor(typedIndex, charIndex, isDeleting)
    }

    constructor (hasElement: bool, initialText: string)
      ensures Valid() && phrases == TypedText && this.hasElement == hasElement
      ensures State() == Cursor(0, 0, false) && text == initialText
    {
      phrases := TypedText;
      this.hasElement := hasElement;
      typedIndex, charIndex, isDeleting := 0, 0, false;
      text := initialText;
    }

    /** One call: None when there is no element (nothing is scheduled again),
        otherwise the delay handed to setTimeout. */
    method Type() returns (delay: Option<nat>)
      requires Valid()
      modifies this
      ensures Valid()
      ensures !hasElement ==> delay == None && State() == old(State()) && text == old(text)
      ensures hasElement ==> var f := Step(phrases, old(State()));
                             State() == f.next && text == f.shown && delay == Some(f.delay)
    {
      if !hasElement {
        return None;
      }
      StepKeepsReachable(phrases, State());
      var current := phrases[typedIndex];
      if isDeleting {
        text := Substring(current, 0, charIndex);
        charIndex := charIndex - 1;
        if charIndex < 0 {
          isDeleting := false;
          typedIndex := (typedIndex + 1) % |phrases|;
          return Some(PauseBeforeNext);
        }
      } else {
        text := Substring(current, 0, charIndex);
        charIndex := charIndex + 1;
        if charIndex > |current| {
          isDeleting := true;
          return Some(PauseBeforeDelete);
        }
      }
      delay := Some(if isDeleting then DeleteDelay else TypeDelay);
    }
  }
}
