/**
 * Keyword spotting on the recognizer's partial transcript (the body of the
 * recognition loop in main.py), and the push of the spotted command onto
 * the command queue.
 */
module Recognition {
  import opened Wrappers
  import opened Channel

  /** ASCII lower-casing of one character. */
  function LowerChar(c: char): char {
    if 'A' <= c <= 'Z' then (c as int + 32) as char else c
  }

  /** ASCII lower-casing of a string (stands for Python's str.lower). */
  function Lower(s: string): (r: string)
    ensures |r| == |s|
    ensures forall i :: 0 <= i < |s| ==> r[i] == LowerChar(s[i])
  {
    if s == [] then [] else [LowerChar(s[0])] + Lower(s[1..])
  }

  /** Lower-casing twice is lower-casing once. */
  lemma LowerIdempotent(s: string)
    ensures Lower(Lower(s)) == Lower(s)
  {
    var l := Lower(s);
    assert forall i :: 0 <= i < |s| ==> LowerChar(l[i]) == l[i];
  }

  /** `word` occurs in `text` starting at index i. */
  predicate OccursAt(text: string, word: string, i: int) {
    0 <= i && i + |word| <= |text| && text[i..i + |word|] == word
  }

  /** Python's substring test `word in text`, by a left-to-right scan. */
  function Contains(text: string, word: string): (r: bool)
    ensures r <==> exists i :: OccursAt(text, word, i)
    decreases |text|
  {
    if |word| > |text| then false
    else if text[..|word|] == word then (assert OccursAt(text, word, 0); true)
    else
      var r := Contains(text[1..], word);
      ShiftOccurrence(text, word);
      r
  }

  /** Occurrences in text[1..] are exactly the occurrences in text after index 0. */
  lemma ShiftOccurrence(text: string, word: string)
    requires |text| > 0
    ensures forall i :: OccursAt(text[1..], word, i) ==> OccursAt(text, word, i + 1)
    ensures forall i :: OccursAt(text, word, i) && i > 0 ==> OccursAt(text[1..], word, i - 1)
  {
    forall i | 0 <= i && i + |word| <= |text| - 1
      ensures OccursAt(text[1..], word, i) <==> OccursAt(text, word, i + 1)
    {
      assert text[1..][i..i + |word|] == text[i + 1..i + 1 + |word|];
    }
  }

  /** A text that contains `word + more` contains `word`. */
  lemma ContainsPrefixOfWord(text: string, word: string, more: string)
    requires Contains(text, word + more)
    ensures Contains(text, word)
  {
    var i :| OccursAt(text, word + more, i);
    assert text[i..i + |word|] == (word + more)[..|word|];
    assert OccursAt(text, word, i);
  }

  /**
   * The command spotted in one partial result: nothing when the `partial`
   * field is missing or empty; otherwise the first of jump, stop and move
   * whose keywords occur in the lower-cased text.
   */
  function Classify(partial: Option<string>): (r: Option<Command>)
    ensures r.Some? ==> partial.Some? && |partial.value| > 0
  {
    match partial
    case None => None
    case Some(p) =>
      if p == "" then None
      else
        var t := Lower(p);
        if Contains(t, "pular") || Contains(t, "pula") then Some(Jump)
        else if Contains(t, "parar") || Contains(t, "para") then Some(Stop)
        else if Contains(t, "andar") || Contains(t, "anda") || Contains(t, "continuar") || Contains(t, "continua") then
          Some(Move)
        else None
  }

  /** The commands pushed for one partial result: none or one. */
  function Emitted(partial: Option<string>): (cs: seq<Command>)
    ensures |cs| <= 1
    ensures cs == [] <==> Classify(partial) == None
    ensures |cs| == 1 ==> Classify(partial) == Some(cs[0])
  {
    match Classify(partial)
    case None => []
    case Some(c) => [c]
  }

  /** The commands pushed for a run of partial results, in order. */
  function Heard(partials: seq<Option<string>>): seq<Command> {
    if partials == [] then [] else Emitted(partials[0]) + Heard(partials[1..])
  }

  /** Both directions of the classifier's decision, with the redundant longer keywords removed. */
  lemma ClassifySpec(p: string)
    ensures Classify(Some(p)) == Some(Jump) <==>
      p != "" && Contains(Lower(p), "pula")
    ensures Classify(Some(p)) == Some(Stop) <==>
      p != "" && !Contains(Lower(p), "pula") && Contains(Lower(p), "para")
    ensures Classify(Some(p)) == Some(Move) <==>
      p != "" && !Contains(Lower(p), "pula") && !Contains(Lower(p), "para") &&
      (Contains(Lower(p), "anda") || Contains(Lower(p), "continua"))
    ensures Classify(Some(p)) == None <==>
      p == "" ||
      (!Contains(Lower(p), "pula") && !Contains(Lower(p), "para") &&
       !Contains(Lower(p), "anda") && !Contains(Lower(p), "continua"))
  {
    var t := Lower(p);
    if Contains(t, "pular") {
      assert "pular" == "pula" + "r";
      ContainsPrefixOfWord(t, "pula", "r");
    }
    if Contains(t, "parar") {
      assert "parar" == "para" + "r";
      ContainsPrefixOfWord(t, "para", "r");
    }
    if Contains(t, "andar") {
      assert "andar" == "anda" + "r";
      ContainsPrefixOfWord(t, "anda", "r");
    }
    if Contains(t, "continuar") {
      assert "continuar" == "continua" + "r";
      ContainsPrefixOfWord(t, "continua", "r");
    }
  }

  /** A missing `partial` field yields no command. */
  lemma ClassifyMissing()
    ensures Classify(None) == None
  {
  }

  /** Classification ignores letter case. */
  lemma ClassifyCaseInsensitive(p: string)
    ensures Classify(Some(Lower(p))) == Classify(Some(p))
  {
    LowerIdempotent(p);
  }

  /** Heard distributes over concatenation: the order of partial results is kept. */
  lemma {:induction false} HeardAppend(a: seq<Option<string>>, b: seq<Option<string>>)
    ensures Heard(a + b) == Heard(a) + Heard(b)
    decreases |a|
  {
    if a == [] {
      assert a + b == b;
    } else {
      assert (a + b)[1..] == a[1..] + b;
      HeardAppend(a[1..], b);
    }
  }

  /** One step of the recognition loop: push the spotted command, if any. */
  method Listen(q: CommandQueue, partial: Option<string>)
    modifies q
    ensures q.items == old(q.items) + Emitted(partial)
  {
    var spotted := Classify(partial);
    if spotted.Some? {
      q.Put(spotted.value);
    }
  }
}
