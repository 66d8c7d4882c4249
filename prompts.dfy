/**
 * The prompt template registry of the backend (`PROMPTS` in backend/app.py): a constant
 * table from strategy identifier to template, and the literal substitution of the
 * question into the template's one `{question}` slot.
 */
module Prompts {
  import opened Wrappers
  import Text

  /** The placeholder every template carries once. */
  const Slot: string := "{question}"

  /** The line every template ends with: the question, then the answer cue. */
  const QuestionLine: string := "Q: {question}\nA:"

  /** The instructions of the standard template. */
  const StandardPreamble: string := "Answer directly.\n"

  /** The instructions of the chain-of-thought template. */
  const CotPreamble: string :=
    "Think step by step. " + "Provide your reasoning, " + "then return the final answer "
    + "after the sequence of steps. " + "Use '####' before " + "the final answer.\n\n"

  /** The instructions of the chain-of-draft template. */
  const CodPreamble: string :=
    "Use a minimal 'draft' " + "style of reasoning " + "(~5 words per step). "
    + "After drafting, " + "return the final answer " + "after '####'.\n\n"

  /** `PROMPTS`: the three templates, each its instructions followed by the question line.
      The longer literals are cut into shorter ones, which leaves every string unchanged. */
  const Templates: map<string, string> := map[
    "standard" := StandardPreamble + QuestionLine,
    "cot" := CotPreamble + QuestionLine,
    "cod" := CodPreamble + QuestionLine
  ]

  /** The stop marker the chain-of-thought and chain-of-draft templates ask for. */
  const Marker: string := "####"

  predicate IsBrace(c: char) {
    c == '{' || c == '}'
  }

  /** No brace character anywhere in `s`. */
  predicate BraceFree(s: string) {
    forall i :: 0 <= i < |s| ==> !IsBrace(s[i])
  }

  /** Number of brace characters in `s`. */
  function Braces(s: string): nat {
    if s == [] then 0 else (if IsBrace(s[0]) then 1 else 0) + Braces(s[1..])
  }

  /** Number of non-overlapping occurrences of `Slot` in `s`, counted left to right. */
  function Slots(s: string): nat {
    if |s| < |Slot| then 0
    else if s[..|Slot|] == Slot then 1 + Slots(s[|Slot|..])
    else Slots(s[1..])
  }

  /** Literal substitution: every occurrence of `Slot`, left to right, becomes `question`;
      the inserted text is not scanned again. */
  function Substitute(template: string, question: string): string {
    if |template| < |Slot| then template
    else if template[..|Slot|] == Slot then question + Substitute(template[|Slot|..], question)
    else [template[0]] + Substitute(template[1..], question)
  }

  /** The prompt sent to the model for strategy `key`; a key outside the table has no
      template, as a failed dictionary lookup has none. */
  function Render(key: string, question: string): Option<string> {
    if key in Templates then Some(Substitute(Templates[key], question)) else None
  }

  /** The instructions in front of the question line of the template for `key`. */
  function Preamble(key: string): string
    requires key in Templates
  {
    var t := Templates[key];
    if |t| < |QuestionLine| then [] else t[..|t| - |QuestionLine|]
  }

  // ----- Facts about brace-free text -----

  lemma BraceFreeTail(s: string)
    requires s != [] && BraceFree(s)
    ensures !IsBrace(s[0]) && BraceFree(s[1..])
  {
    assert forall i :: 0 <= i < |s| - 1 ==> s[1..][i] == s[i + 1];
  }

  /** Text made of two pieces is brace-free exactly when both pieces are. */
  lemma BraceFreeAppend(a: string, b: string)
    ensures BraceFree(a + b) <==> BraceFree(a) && BraceFree(b)
  {
    if BraceFree(a + b) {
      assert forall i :: 0 <= i < |a| ==> a[i] == (a + b)[i];
      assert forall i :: 0 <= i < |b| ==> b[i] == (a + b)[|a| + i];
    }
  }

  lemma {:induction false} BracesOfFree(s: string)
    requires BraceFree(s)
    ensures Braces(s) == 0
  {
    if s != [] {
      BraceFreeTail(s);
      BracesOfFree(s[1..]);
    }
  }

  lemma {:induction false} BracesAppend(a: string, b: string)
    ensures Braces(a + b) == Braces(a) + Braces(b)
  {
    if a != [] {
      assert (a + b)[1..] == a[1..] + b;
      BracesAppend(a[1..], b);
    } else {
      assert a + b == b;
    }
  }

  lemma {:induction false} SlotsAfterFree(p: string, rest: string)
    requires BraceFree(p)
    ensures Slots(p + rest) == Slots(rest)
  {
    if p != [] {
      BraceFreeTail(p);
      assert (p + rest)[1..] == p[1..] + rest;
      if |p + rest| >= |Slot| {
        assert (p + rest)[..|Slot|][0] == p[0];
      }
      SlotsAfterFree(p[1..], rest);
      if |p + rest| < |Slot| {
        assert |rest| < |Slot|;
      }
    } else {
      assert p + rest == rest;
    }
  }

  lemma {:induction false} SubstituteAfterFree(p: string, rest: string, question: string)
    requires BraceFree(p)
    ensures Substitute(p + rest, question) == p + Substitute(rest, question)
  {
    if p != [] {
      BraceFreeTail(p);
      assert (p + rest)[1..] == p[1..] + rest;
      if |p + rest| >= |Slot| {
        assert (p + rest)[..|Slot|][0] == p[0];
        SubstituteAfterFree(p[1..], rest, question);
        assert [p[0]] + (p[1..] + Substitute(rest, question)) == p + Substitute(rest, question);
      } else {
        assert |rest| < |Slot|;
      }
    } else {
      assert p + rest == rest;
    }
  }

  lemma SubstituteFree(s: string, question: string)
    requires BraceFree(s)
    ensures Substitute(s, question) == s
  {
    SubstituteAfterFree(s, [], question);
    assert s + [] == s;
  }

  lemma SlotsFree(s: string)
    requires BraceFree(s)
    ensures Slots(s) == 0
  {
    SlotsAfterFree(s, []);
    assert s + [] == s;
  }

  /** The question line is a slot between two brace-free pieces. */
  lemma QuestionLineParts()
    ensures QuestionLine == "Q: " + Slot + "\nA:"
    ensures BraceFree("Q: ") && BraceFree("\nA:")
  {
  }

  lemma SlotThenRest(rest: string, question: string)
    ensures Substitute(Slot + rest, question) == question + Substitute(rest, question)
    ensures Slots(Slot + rest) == 1 + Slots(rest)
  {
    assert (Slot + rest)[..|Slot|] == Slot;
    assert (Slot + rest)[|Slot|..] == rest;
  }

  lemma BracesOfSlot()
    ensures Braces(Slot) == 2
  {
  }

  // ----- Properties of the registry -----

  /** Every template is its preamble followed by the question line, and the preamble
      holds no brace character; the preambles are non-empty. */
  lemma TemplateShape(key: string)
    requires key in Templates
    ensures Templates[key] == Preamble(key) + QuestionLine
    ensures BraceFree(Preamble(key)) && Preamble(key) != []
    ensures Preamble(key)[0] == (if key == "standard" then 'A' else if key == "cot" then 'T' else 'U')
  {
    var p: string;
    if key == "standard" {
      p := StandardShape();
    } else if key == "cot" {
      p := CotShape();
    } else {
      p := CodShape();
    }
    assert Preamble(key) == p;
  }

  lemma StandardShape() returns (p: string)
    ensures Templates["standard"] == p + QuestionLine && BraceFree(p) && p != [] && p[0] == 'A'
  {
    p := StandardPreamble;
  }

  /** The first literals of the chain-of-thought instructions hold no brace. */
  lemma CotOpening()
    ensures BraceFree("Think step by step. ")
    ensures BraceFree("Provide your reasoning, ")
    ensures BraceFree("then return the final answer ")
  {
  }

  /** The last literals of the chain-of-thought instructions hold no brace. */
  lemma CotClosing()
    ensures BraceFree("after the sequence of steps. ")
    ensures BraceFree("Use '####' before ")
    ensures BraceFree("the final answer.\n\n")
  {
  }

  lemma CotShape() returns (p: string)
    ensures Templates["cot"] == p + QuestionLine && BraceFree(p) && p != [] && p[0] == 'T'
  {
    p := CotPreamble;
    CotOpening();
    CotClosing();
  }

  /** The first literals of the chain-of-draft instructions hold no brace. */
  lemma CodOpening()
    ensures BraceFree("Use a minimal 'draft' ")
    ensures BraceFree("style of reasoning ")
    ensures BraceFree("(~5 words per step). ")
  {
  }

  /** The last literals of the chain-of-draft instructions hold no brace. */
  lemma CodClosing()
    ensures BraceFree("After drafting, ")
    ensures BraceFree("return the final answer ")
    ensures BraceFree("after '####'.\n\n")
  {
  }

  lemma CodShape() returns (p: string)
    ensures Templates["cod"] == p + QuestionLine && BraceFree(p) && p != [] && p[0] == 'U'
  {
    p := CodPreamble;
    CodOpening();
    CodClosing();
  }

  /** Substituting into a brace-free preamble followed by the question line. */
  lemma SubstituteFramed(p: string, question: string)
    requires BraceFree(p)
    ensures Substitute(p + QuestionLine, question) == p + "Q: " + question + "\nA:"
  {
    QuestionLineParts();
    BraceFreeAppend(p, "Q: ");
    assert p + QuestionLine == (p + "Q: ") + (Slot + "\nA:");
    SubstituteAfterFree(p + "Q: ", Slot + "\nA:", question);
    SlotThenRest("\nA:", question);
    SubstituteFree("\nA:", question);
  }

  /** A brace-free preamble followed by the question line holds one slot. */
  lemma SlotsFramed(p: string)
    requires BraceFree(p)
    ensures Slots(p + QuestionLine) == 1
  {
    QuestionLineParts();
    BraceFreeAppend(p, "Q: ");
    assert p + QuestionLine == (p + "Q: ") + (Slot + "\nA:");
    SlotsAfterFree(p + "Q: ", Slot + "\nA:");
    SlotThenRest("\nA:", "");
    SlotsFree("\nA:");
  }

  /** A brace-free preamble followed by the question line holds two braces, the slot's. */
  lemma BracesFramed(p: string)
    requires BraceFree(p)
    ensures Braces(p + QuestionLine) == 2
  {
    QuestionLineParts();
    BraceFreeAppend(p, "Q: ");
    assert p + QuestionLine == (p + "Q: ") + (Slot + "\nA:");
    BracesAppend(p + "Q: ", Slot + "\nA:");
    BracesAppend(Slot, "\nA:");
    BracesOfFree(p + "Q: ");
    BracesOfFree("\nA:");
    BracesOfSlot();
  }

  /** Rendering puts the question verbatim between the preamble's "Q: " and the closing
      "\nA:"; the question is therefore a substring of the prompt. */
  lemma RenderShape(key: string, question: string)
    requires key in Templates
    ensures Render(key, question) == Some(Preamble(key) + "Q: " + question + "\nA:")
    ensures Text.IsSubstring(question, Render(key, question).value)
  {
    var p := Preamble(key);
    TemplateShape(key);
    SubstituteFramed(p, question);
    var r := p + "Q: " + question + "\nA:";
    assert r[|p| + 3..|p| + 3 + |question|] == question;
    Text.FoundAt(question, r, |p| + 3);
  }

  /** Every template holds the placeholder exactly once and no other brace character,
      and ends with the question line. */
  lemma TemplateHasOneSlot(key: string)
    requires key in Templates
    ensures Slots(Templates[key]) == 1
    ensures Braces(Templates[key]) == 2
    ensures |QuestionLine| <= |Templates[key]|
    ensures Templates[key][|Templates[key]| - |QuestionLine|..] == QuestionLine
  {
    TemplateShape(key);
    SlotsFramed(Preamble(key));
    BracesFramed(Preamble(key));
  }

  /** A question without braces leaves no placeholder and no brace in the prompt. */
  lemma RenderLeavesNoPlaceholder(key: string, question: string)
    requires key in Templates && BraceFree(question)
    ensures BraceFree(Render(key, question).value)
    ensures Slots(Render(key, question).value) == 0
  {
    RenderShape(key, question);
    TemplateShape(key);
    var p := Preamble(key);
    BraceFreeAppend(p, "Q: ");
    BraceFreeAppend(p + "Q: ", question);
    BraceFreeAppend(p + "Q: " + question, "\nA:");
    SlotsFree(Render(key, question).value);
  }

  /** The chain-of-thought template asks for the stop marker before the final answer. */
  lemma CotAsksForMarker()
    ensures Text.IsSubstring(Marker, Templates["cot"])
  {
    var head := "Think step by step. " + "Provide your reasoning, " + "then return the final answer "
      + "after the sequence of steps. ";
    var mid := "Use '####' before ";
    assert mid[5..9] == Marker;
    Text.OccursInside(Marker, head, mid, "the final answer.\n\n", 5);
    Text.OccursBefore(Marker, CotPreamble, QuestionLine, |head| + 5);
    Text.FoundAt(Marker, Templates["cot"], |head| + 5);
  }

  /** The chain-of-draft template asks for the stop marker before the final answer. */
  lemma CodAsksForMarker()
    ensures Text.IsSubstring(Marker, Templates["cod"])
  {
    var head := "Use a minimal 'draft' " + "style of reasoning " + "(~5 words per step). "
      + "After drafting, " + "return the final answer ";
    var mid := "after '####'.\n\n";
    assert mid[7..11] == Marker;
    Text.OccursInside(Marker, head, mid, [], 7);
    assert head + mid + [] == CodPreamble;
    Text.OccursBefore(Marker, CodPreamble, QuestionLine, |head| + 7);
    Text.FoundAt(Marker, Templates["cod"], |head| + 7);
  }

  /** The standard template never mentions the stop marker. */
  lemma StandardOmitsMarker()
    ensures !Text.IsSubstring(Marker, Templates["standard"])
  {
    assert '#' !in Templates["standard"];
    Text.AbsentChar(Marker, Templates["standard"], '#');
  }

  // ----- Recovering the strategy from a prompt -----

  /** `prompt` has the frame of the template for `key`: that preamble and "Q: " in front,
      "\nA:" at the end. */
  predicate Framed(key: string, prompt: string)
    requires key in Templates
  {
    var n := |Preamble(key)| + 3;
    n + 3 <= |prompt| && prompt[..n] == Preamble(key) + "Q: " && prompt[|prompt| - 3..] == "\nA:"
  }

  /** The text between the frame's two ends. */
  function QuestionIn(key: string, prompt: string): string
    requires key in Templates && Framed(key, prompt)
  {
    prompt[|Preamble(key)| + 3..|prompt| - 3]
  }

  /** Reads the strategy and the question back off a prompt, trying the keys in turn. */
  function Parse(prompt: string): Option<(string, string)> {
    if Framed("standard", prompt) then Some(("standard", QuestionIn("standard", prompt)))
    else if Framed("cot", prompt) then Some(("cot", QuestionIn("cot", prompt)))
    else if Framed("cod", prompt) then Some(("cod", QuestionIn("cod", prompt)))
    else None
  }

  /** A prompt whose first character differs from a preamble's has not that frame. */
  lemma NotFramed(key: string, prompt: string)
    requires key in Templates && prompt != []
    requires prompt[0] != Preamble(key)[0]
    ensures !Framed(key, prompt)
  {
    TemplateShape(key);
  }

  /** A rendered prompt has its template's frame, around the question. */
  lemma RenderFramed(key: string, question: string)
    requires key in Templates
    ensures Framed(key, Render(key, question).value)
    ensures QuestionIn(key, Render(key, question).value) == question
  {
    RenderShape(key, question);
    var p := Preamble(key);
    var r := p + "Q: " + question + "\nA:";
    assert r[..|p| + 3] == p + "Q: ";
    assert r[|r| - 3..] == "\nA:";
  }

  /** Parsing a rendered prompt gives back the strategy and the question. */
  lemma ParseRender(key: string, question: string)
    requires key in Templates
    ensures Parse(Render(key, question).value) == Some((key, question))
  {
    RenderShape(key, question);
    RenderFramed(key, question);
    TemplateShape(key);
    var r := Render(key, question).value;
    assert r[0] == Preamble(key)[0];
    if key != "standard" {
      NotFramed("standard", r);
    }
    if key == "cod" {
      NotFramed("cot", r);
    }
  }

  /** Different strategies or different questions never render to the same prompt. */
  lemma RenderInjective(k1: string, q1: string, k2: string, q2: string)
    requires k1 in Templates && k2 in Templates
    requires Render(k1, q1) == Render(k2, q2)
    ensures k1 == k2 && q1 == q2
  {
    ParseRender(k1, q1);
    ParseRender(k2, q2);
  }

  /** No two strategies share a template. */
  lemma TemplatesDistinct(k1: string, k2: string)
    requires k1 in Templates && k2 in Templates && k1 != k2
    ensures Templates[k1] != Templates[k2]
  {
    if Templates[k1] == Templates[k2] {
      RenderInjective(k1, "", k2, "");
    }
  }
}
