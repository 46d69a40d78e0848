/**
 * The question generator (app.py, `generate_questions`): the completion the
 * language model returned is stripped and split into lines, blank lines are
 * dropped, the survivors are stripped, and each gets a category by rotating
 * through Technical, Behavioral, HR and Situational. The rotation follows a
 * line's position among ALL the lines, blank ones included, so a blank line
 * between two questions skips a category.
 */
module Questions {
  import opened Text

  /** The four question categories, in the order of the rotation. */
  datatype Category = Technical | Behavioral | HR | Situational

  /** The category's name as the service reports it. */
  function Name(c: Category): string {
    match c
    case Technical => "Technical"
    case Behavioral => "Behavioral"
    case HR => "HR"
    case Situational => "Situational"
  }

  /** The rotation of categories, `categories` in the source. */
  const Rotation: seq<Category> := [Technical, Behavioral, HR, Situational]

  /** The category of the line at position `i` of the split completion. */
  function CategoryAt(i: nat): Category {
    Rotation[i % |Rotation|]
  }

  /** The names the service reports, `categories` in the source. */
  const CategoryNames: seq<string> := ["Technical", "Behavioral", "HR", "Situational"]

  /** The category of position `i` is reported as `categories[i % 4]`, and
      no other category goes by that name. */
  lemma CategoryAtNamed(i: nat, c: Category)
    ensures Name(CategoryAt(i)) == CategoryNames[i % 4]
    ensures Name(c) == Name(CategoryAt(i)) ==> c == CategoryAt(i)
  {
    var n := Name(c);
    assert n[0] == 'T' || n[0] == 'B' || n[0] == 'H' || n[0] == 'S';
  }

  /** One interview question (app.py, `Question`). */
  datatype Question = Question(id: string, text: string, category: Category)

  /** A line that yields a question: one that is not all whitespace, so
      that stripping leaves something (`StripEmpty`). */
  predicate Kept(line: string) {
    !AllSpace(line)
  }

  /** The positions of the lines that yield a question, in increasing
      order. */
  function KeptPositions(lines: seq<string>): (idx: seq<nat>)
    ensures forall k :: 0 <= k < |idx| ==> idx[k] < |lines|
  {
    if |lines| == 0 then []
    else
      var idx := KeptPositions(lines[..|lines| - 1]);
      if Kept(lines[|lines| - 1]) then idx + [|lines| - 1] else idx
  }

  /** The kept positions are every position of a line that is not blank,
      and no other, in increasing order. */
  lemma KeptPositionsAre(lines: seq<string>)
    ensures var idx := KeptPositions(lines);
      && (forall k :: 0 <= k < |idx| ==> Kept(lines[idx[k]]))
      && (forall k, l :: 0 <= k < l < |idx| ==> idx[k] < idx[l])
      && (forall i :: 0 <= i < |lines| && Kept(lines[i]) ==> i in idx)
  {
    OnlyKeptPositions(lines);
    KeptPositionsIncrease(lines);
    AllKeptPositions(lines);
  }

  /** Every kept position holds a line that is not blank. */
  lemma {:induction false} OnlyKeptPositions(lines: seq<string>)
    ensures forall k :: 0 <= k < |KeptPositions(lines)| ==> Kept(lines[KeptPositions(lines)[k]])
  {
    if |lines| > 0 {
      var n := |lines| - 1;
      var front := lines[..n];
      OnlyKeptPositions(front);
      var idx := KeptPositions(front);
      forall k | 0 <= k < |idx| ensures Kept(lines[idx[k]]) {
        assert front[idx[k]] == lines[idx[k]];
      }
      if Kept(lines[n]) {
        var all := idx + [n];
        assert KeptPositions(lines) == all;
        forall k | 0 <= k < |all| ensures Kept(lines[all[k]]) {
          if k < |idx| { assert all[k] == idx[k]; }
        }
      } else {
        assert KeptPositions(lines) == idx;
      }
    }
  }

  /** The kept positions increase strictly. */
  lemma {:induction false} KeptPositionsIncrease(lines: seq<string>)
    ensures forall k, l :: 0 <= k < l < |KeptPositions(lines)| ==> KeptPositions(lines)[k] < KeptPositions(lines)[l]
  {
    if |lines| > 0 {
      var n := |lines| - 1;
      var front := lines[..n];
      KeptPositionsIncrease(front);
      var idx := KeptPositions(front);
      if Kept(lines[n]) {
        var all := idx + [n];
        assert KeptPositions(lines) == all;
        forall k, l | 0 <= k < l < |all| ensures all[k] < all[l] {
          assert all[k] == idx[k] && idx[k] < |front|;
          if l < |idx| { assert all[l] == idx[l]; }
        }
      } else {
        assert KeptPositions(lines) == idx;
      }
    }
  }

  /** Every line that is not blank has its position among the kept ones. */
  lemma {:induction false} AllKeptPositions(lines: seq<string>)
    ensures forall i :: 0 <= i < |lines| && Kept(lines[i]) ==> i in KeptPositions(lines)
  {
    if |lines| > 0 {
      var n := |lines| - 1;
      var front := lines[..n];
      AllKeptPositions(front);
      var idx := KeptPositions(front);
      if Kept(lines[n]) {
        var all := idx + [n];
        assert KeptPositions(lines) == all;
        forall i | 0 <= i < |lines| && Kept(lines[i]) ensures i in all {
          if i < n { assert front[i] == lines[i]; }
        }
      } else {
        assert KeptPositions(lines) == idx;
        forall i | 0 <= i < |lines| && Kept(lines[i]) ensures i in idx {
          assert front[i] == lines[i];
        }
      }
    }
  }

  /** The question asked for the line at `position`: the line stripped,
      under the identifier `id`, in the position's category. */
  function Ask(line: string, id: string, position: nat): Question {
    Question(id, Strip(line), CategoryAt(position))
  }

  /** The list comprehension over `enumerate(lines)`, from the back: the
      questions for all but the last line, then the last line's question if
      it is not blank. `ids(k)` is the identifier drawn for the `k`-th
      question generated. */
  function Build(lines: seq<string>, ids: nat -> string): seq<Question> {
    if |lines| == 0 then []
    else
      var front := Build(lines[..|lines| - 1], ids);
      var text := Strip(lines[|lines| - 1]);
      if text != [] then front + [Ask(lines[|lines| - 1], ids(|front|), |lines| - 1)]
      else front
  }

  /** The comprehension yields, in order, one question per kept line, with
      that line's stripped text and the category of its position. */
  lemma {:induction false} BuildFollowsKept(lines: seq<string>, ids: nat -> string)
    ensures var qs := Build(lines, ids); var idx := KeptPositions(lines);
      |qs| == |idx| &&
      forall k :: 0 <= k < |qs| ==>
        qs[k] == Ask(lines[idx[k]], ids(k), idx[k])
  {
    if |lines| > 0 {
      var n := |lines| - 1;
      var front := lines[..n];
      BuildFollowsKept(front, ids);
      var before := Build(front, ids);
      var idx := KeptPositions(front);
      forall k | 0 <= k < |idx| ensures front[idx[k]] == lines[idx[k]] {}
      if Kept(lines[n]) {
        BuildKeepsLast(lines, ids, before, idx);
      } else {
        assert Strip(lines[n]) == [] by { StripEmpty(lines[n]); }
        assert Build(lines, ids) == before;
        assert KeptPositions(lines) == idx;
      }
    }
  }

  /** The step of `BuildFollowsKept` where the last line is kept. */
  lemma BuildKeepsLast(lines: seq<string>, ids: nat -> string, before: seq<Question>, idx: seq<nat>)
    requires |lines| > 0 && Kept(lines[|lines| - 1])
    requires before == Build(lines[..|lines| - 1], ids) && idx == KeptPositions(lines[..|lines| - 1])
    requires |before| == |idx|
    requires forall k :: 0 <= k < |before| ==>
      idx[k] < |lines| && before[k] == Ask(lines[idx[k]], ids(k), idx[k])
    ensures var qs := Build(lines, ids); var all := KeptPositions(lines);
      |qs| == |all| &&
      forall k :: 0 <= k < |qs| ==>
        qs[k] == Ask(lines[all[k]], ids(k), all[k])
  {
    var n := |lines| - 1;
    var last := Ask(lines[n], ids(|before|), n);
    assert Strip(lines[n]) != [] by { StripEmpty(lines[n]); }
    var qs := before + [last];
    var all := idx + [n];
    assert Build(lines, ids) == qs;
    assert KeptPositions(lines) == all;
    forall k | 0 <= k < |qs|
      ensures qs[k] == Ask(lines[all[k]], ids(k), all[k])
    {
      if k < |before| {
        assert qs[k] == before[k] && all[k] == idx[k];
      } else {
        assert qs[k] == last && all[k] == n;
      }
    }
  }

  /** `generate_questions` on the completion the model returned: one question
      per line of the stripped, split completion that is not all
      whitespace, in the order of the lines; its text is that line
      stripped, and its category is the rotation's entry for the line's
      position among all the lines. */
  function GenerateQuestions(completion: string, ids: nat -> string): (qs: seq<Question>)
    ensures var lines := CompletionLines(completion); var idx := KeptPositions(lines);
      |qs| == |idx| &&
      forall k :: 0 <= k < |qs| ==>
        qs[k].id == ids(k) && qs[k].text == Strip(lines[idx[k]]) &&
        qs[k].category == Rotation[idx[k] % 4]
  {
    var lines := CompletionLines(completion);
    BuildFollowsKept(lines, ids);
    Build(lines, ids)
  }

  /** Every question text is a whole line: not empty, without a line break,
      and with no whitespace at either end. */
  lemma QuestionTextsAreLines(completion: string, ids: nat -> string)
    ensures var qs := GenerateQuestions(completion, ids);
      forall k :: 0 <= k < |qs| ==> Line(qs[k].text)
  {
    var qs := GenerateQuestions(completion, ids);
    var lines := CompletionLines(completion);
    var idx := KeptPositions(lines);
    KeptPositionsAre(lines);
    forall k | 0 <= k < |qs| ensures Line(qs[k].text) {
      KeptLineIsLine(lines[idx[k]]);
    }
  }

  /** A kept line of the completion, stripped, is a whole line. */
  lemma KeptLineIsLine(line: string)
    requires '\n' !in line && Kept(line)
    ensures Line(Strip(line))
  {
    assert Strip(line) != [] by { StripEmpty(line); }
    var r := Strip(line);
    StripPadded(line);
    var i: nat :| Padded(line, r, i);
    forall k | 0 <= k < |r| ensures r[k] != '\n' {
      assert r[k] == line[i + k];
    }
  }

  /** A completion that is all whitespace yields no questions. */
  lemma BlankCompletion(completion: string, ids: nat -> string)
    requires AllSpace(completion)
    ensures GenerateQuestions(completion, ids) == []
  {
    StripEmpty(completion);
    assert CompletionLines(completion) == [""];
    assert Strip("") == [];
    assert Build([""], ids) == [];
  }

  /** A line that can stand as a question text on its own: not empty, no
      line break, and no whitespace at either end. */
  predicate Line(s: string) {
    s != [] && '\n' !in s && !IsSpace(s[0]) && !IsSpace(s[|s| - 1])
  }

  /** With no blank lines, the `k`-th line gives the `k`-th question. */
  lemma {:induction false} BuildOfLines(lines: seq<string>, ids: nat -> string)
    requires forall k :: 0 <= k < |lines| ==> Line(lines[k])
    ensures var qs := Build(lines, ids);
      |qs| == |lines| && forall k :: 0 <= k < |qs| ==> qs[k] == Ask(lines[k], ids(k), k)
  {
    if |lines| > 0 {
      var n := |lines| - 1;
      var front := lines[..n];
      forall k | 0 <= k < n ensures Line(front[k]) {
        assert front[k] == lines[k];
      }
      BuildOfLines(front, ids);
      assert Strip(lines[n]) != [] by { StripUnpadded(lines[n]); }
      var before := Build(front, ids);
      var qs := before + [Ask(lines[n], ids(n), n)];
      assert Build(lines, ids) == qs;
      forall k | 0 <= k < |qs| ensures qs[k] == Ask(lines[k], ids(k), k) {
        if k < n {
          assert qs[k] == before[k] && front[k] == lines[k];
        }
      }
    }
  }

  /** Completing with questions on consecutive lines gives those questions
      back, categorised Technical, Behavioral, HR, Situational, Technical, ... */
  lemma ConsecutiveQuestions(texts: seq<string>, ids: nat -> string)
    requires |texts| >= 1
    requires forall k :: 0 <= k < |texts| ==> Line(texts[k])
    ensures var qs := GenerateQuestions(Join(texts, "\n"), ids);
      |qs| == |texts| &&
      forall k :: 0 <= k < |qs| ==> qs[k] == Question(ids(k), texts[k], Rotation[k % 4])
  {
    ConsecutiveLines(texts);
    BuildOfLines(texts, ids);
    var qs := Build(texts, ids);
    assert GenerateQuestions(Join(texts, "\n"), ids) == qs;
    PlainAsks(texts, qs, ids);
  }

  /** The question asked for a whole line has the line itself as its text. */
  lemma PlainAsks(texts: seq<string>, qs: seq<Question>, ids: nat -> string)
    requires |qs| == |texts|
    requires forall k :: 0 <= k < |texts| ==> Line(texts[k]) && qs[k] == Ask(texts[k], ids(k), k)
    ensures forall k :: 0 <= k < |qs| ==> qs[k] == Question(ids(k), texts[k], Rotation[k % 4])
  {
    forall k | 0 <= k < |qs| ensures qs[k] == Question(ids(k), texts[k], Rotation[k % 4]) {
      StripUnpadded(texts[k]);
    }
  }

  /** Lines joined with line breaks split back into those lines. */
  lemma ConsecutiveLines(texts: seq<string>)
    requires |texts| >= 1
    requires forall k :: 0 <= k < |texts| ==> Line(texts[k])
    ensures CompletionLines(Join(texts, "\n")) == texts
  {
    JoinEnds(texts, "\n");
    StripUnpadded(Join(texts, "\n"));
    SplitJoin(texts, '\n');
  }

  /** A blank line between two questions skips a category: the second
      question is HR, not Behavioral. */
  lemma BlankLineSkipsCategory(first: string, second: string, ids: nat -> string)
    requires Line(first) && Line(second)
    ensures GenerateQuestions(first + "\n\n" + second, ids)
      == [Question(ids(0), first, Technical), Question(ids(1), second, HR)]
  {
    ThreeLines(first, second);
    BuildAroundBlank(first, second, ids);
  }

  /** The comprehension over a kept line, a blank line and a kept line. */
  lemma BuildAroundBlank(first: string, second: string, ids: nat -> string)
    requires Line(first) && Line(second)
    ensures Build([first, "", second], ids)
      == [Question(ids(0), first, Technical), Question(ids(1), second, HR)]
  {
    var none: seq<string> := [];
    var one := none + [first];
    var two := one + [""];
    BuildSnocLine(none, first, ids);
    BuildSnocBlank(one, ids);
    BuildSnocLine(two, second, ids);
    assert two + [second] == [first, "", second];
  }

  /** A kept line appended to the completion adds its question at the end. */
  lemma BuildSnocLine(lines: seq<string>, line: string, ids: nat -> string)
    requires Line(line)
    ensures var before := Build(lines, ids);
      Build(lines + [line], ids) == before + [Question(ids(|before|), line, CategoryAt(|lines|))]
  {
    StripUnpadded(line);
    assert (lines + [line])[..|lines|] == lines;
  }

  /** An empty line appended to the completion adds nothing. */
  lemma BuildSnocBlank(lines: seq<string>, ids: nat -> string)
    ensures Build(lines + [""], ids) == Build(lines, ids)
  {
    assert Strip("") == [];
    assert (lines + [""])[..|lines|] == lines;
  }

  /** Two lines with a blank line between them split into three lines. */
  lemma ThreeLines(first: string, second: string)
    requires Line(first) && Line(second)
    ensures CompletionLines(first + "\n\n" + second) == [first, "", second]
  {
    var parts := [first, "", second];
    assert parts[1..][1..] == [second];
    assert Join(parts[1..], "\n") == "\n" + second;
    assert Join(parts, "\n") == first + "\n\n" + second;
    JoinEnds(parts, "\n");
    StripUnpadded(first + "\n\n" + second);
    SplitJoin(parts, '\n');
  }
}
