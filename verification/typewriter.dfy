/** The typewriter heading of the hero section: a phrase is typed one
    character per tick, held, deleted one character per tick, and the next
    phrase follows. */
module Typewriter {
  import Text

  const Phrases: seq<string> := ["MERN Stack Developer", "Full Stack Developer", "AI & ML Enthusiast", "Problem Solver"]

  /** The three pieces of component state. */
  datatype State = State(text: string, index: nat, deleting: bool)

  predicate IsPrefix(p: string, s: string) {
    |p| <= |s| && s[..|p|] == p
  }

  /** What every reachable state satisfies: a valid phrase index and a
      shown text that is a prefix of that phrase. */
  predicate Inv(s: State) {
    s.index < |Phrases| && IsPrefix(s.text, Phrases[s.index])
  }

  /** Whether a tick schedules the switch to deleting: only when typing
      has reached the whole phrase. */
  predicate RequestsDelete(s: State)
    requires s.index < |Phrases|
  {
    !s.deleting && s.text == Phrases[s.index]
  }

  /** One timer tick: the text grows or shrinks by one character of the
      current phrase; a tick that finds the text empty while deleting
      switches back to typing the next phrase. */
  function Next(s: State): (r: State)
    requires s.index < |Phrases|
    ensures r.index < |Phrases|
    ensures r.index != s.index ==> s.deleting && s.text == "" && !r.deleting
    ensures r.deleting ==> s.deleting
  {
    var full := Phrases[s.index];
    var text := if s.deleting then Text.Substring(full, 0, |s.text| - 1)
                else Text.Substring(full, 0, |s.text| + 1);
    if s.deleting && s.text == "" then State(text, (s.index + 1) % |Phrases|, false)
    else State(text, s.index, s.deleting)
  }

  /** Ticking keeps the shown text a prefix of the current phrase. */
  lemma NextKeepsInv(s: State)
    requires Inv(s)
    ensures Inv(Next(s))
  {
    var full := Phrases[s.index];
    Text.SubstringPrefix(full, |s.text| - 1);
    Text.SubstringPrefix(full, |s.text| + 1);
  }

  /** While typing, each tick shows one more character of the phrase, and
      once it is whole the state stays as it is. */
  lemma TypingStep(s: State)
    requires Inv(s) && !s.deleting
    ensures var full := Phrases[s.index];
      && (|s.text| < |full| ==> Next(s) == State(full[..|s.text| + 1], s.index, false) && !RequestsDelete(s))
      && (|s.text| == |full| ==> Next(s) == s && RequestsDelete(s))
  {
    Text.SubstringPrefix(Phrases[s.index], |s.text| + 1);
  }

  /** While deleting, each tick removes the last character; a tick on the
      empty text moves on to type the next phrase. */
  lemma DeletingStep(s: State)
    requires Inv(s) && s.deleting
    ensures s.text != "" ==> Next(s) == State(s.text[..|s.text| - 1], s.index, true)
    ensures s.text == "" ==> Next(s) == State("", (s.index + 1) % |Phrases|, false)
    ensures !RequestsDelete(s)
  {
    Text.SubstringPrefix(Phrases[s.index], |s.text| - 1);
  }

  function Iterate(s: State, n: nat): State
    requires Inv(s)
    decreases n
  {
    NextKeepsInv(s);
    if n == 0 then s else Iterate(Next(s), n - 1)
  }

  /** Typing from any prefix reaches the whole phrase in as many ticks as
      characters are missing. */
  lemma {:induction false} TypingCompletes(s: State)
    requires Inv(s) && !s.deleting
    ensures var full := Phrases[s.index];
      Iterate(s, |full| - |s.text|) == State(full, s.index, false)
    decreases |Phrases[s.index]| - |s.text|
  {
    var full := Phrases[s.index];
    TypingStep(s);
    if |s.text| < |full| {
      NextKeepsInv(s);
      TypingCompletes(Next(s));
    }
  }

  /** Deleting from any prefix empties the text and, one tick later,
      starts typing the next phrase. */
  lemma {:induction false} DeletingCompletes(s: State)
    requires Inv(s) && s.deleting
    ensures Iterate(s, |s.text| + 1) == State("", (s.index + 1) % |Phrases|, false)
    decreases |s.text|
  {
    DeletingStep(s);
    if s.text != "" {
      NextKeepsInv(s);
      DeletingCompletes(Next(s));
    }
  }

  /** The component: its state, updated by timer callbacks. */
  class Typewriter {
    var text: string
    var index: nat
    var deleting: bool

    function Current(): State
      reads this
    {
      State(text, index, deleting)
    }

    ghost predicate Valid()
      reads this
    {
      Inv(Current())
    }

    constructor()
      ensures Valid() && Current() == State("", 0, false)
    {
      text, index, deleting := "", 0, false;
    }

    /** The typing timer firing: the state advances by one step, and the
        result says whether the hold-then-delete timer is scheduled. */
    method Tick() returns (scheduleDelete: bool)
      requires Valid()
      modifies this
      ensures Valid()
      ensures Current() == Next(old(Current()))
      ensures scheduleDelete <==> RequestsDelete(old(Current()))
    {
      NextKeepsInv(Current());
      var fullText := Phrases[index];
      scheduleDelete := !deleting && text == fullText;
      var newText := if deleting then Text.Substring(fullText, 0, |text| - 1)
                     else Text.Substring(fullText, 0, |text| + 1);
      if deleting && text == "" {
        text, index, deleting := newText, (index + 1) % |Phrases|, false;
      } else {
        text := newText;
      }
    }

    /** The hold timer firing: deletion starts. */
    method StartDeleting()
      requires Valid()
      modifies this
      ensures Valid()
      ensures Current() == old(Current()).(deleting := true)
    {
      deleting := true;
    }
  }
}
