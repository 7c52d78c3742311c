/** `format_attempts_for_ai`: the text the report endpoint hands to the language
    model, one four-line block per mistaken attempt. */
module MistakeFormat {
  import opened Common
  import opened PyValues

  /** The `question` key of an attempt dict. Only a dict has `.get`; any other
      value there (`null`, a string, a number) has none. */
  datatype QuestionEntry =
    | NoQuestion
    | QuestionObject(topic: Field)
    | QuestionScalar(v: Value)

  /** One element of the request's `attempts` list: the four keys the formatter reads. */
  datatype AttemptDict = AttemptDict(
    errorType: Field,
    explanation: Field,
    questionId: Field,
    question: QuestionEntry)

  /** The sentence returned when no attempt is a mistake. (Long literals are
      written in short pieces, which the verifier handles far more cheaply.) */
  const NoMistakesMessage: string :=
    "No mistakes found "
    + "in the provided attempts. "
    + "All questions were answered correctly!"

  /** `attempt.get('error_type') and attempt['error_type'] != 'none'`: the key is
      present with a value that is neither falsy nor the string `'none'`. */
  predicate IsMistake(a: AttemptDict)
    ensures IsMistake(a) <==>
      a.errorType.Present? && a.errorType.v !in {Null, Bool(false), Int(0), Str(""), Str("none")}
  {
    Truthy(GetValue(a.errorType)) && GetValue(a.errorType) != Str("none")
  }

  /** The attempts that get a block, in input order. */
  function Mistakes(attempts: seq<AttemptDict>): seq<AttemptDict>
  {
    Filter(IsMistake, attempts)
  }

  /** Whether `attempt.get('question', {})` has a `.get` of its own. */
  predicate QuestionReadable(a: AttemptDict)
  {
    !a.question.QuestionScalar?
  }

  /** `attempt.get('question', {}).get('topic', 'Unknown')`. */
  function TopicText(a: AttemptDict): (r: Result<string>)
    ensures r.Err? <==> !QuestionReadable(a)
    ensures r.Err? ==> r.failure == NotAMapping
    ensures a.question == NoQuestion ==> r == Ok("Unknown")
    ensures a.question.QuestionObject? ==> r == Ok(GetOr(a.question.topic, "Unknown"))
    ensures a.question == QuestionObject(Absent) ==> r == Ok("Unknown")
  {
    match a.question
    case NoQuestion => Ok("Unknown")
    case QuestionObject(t) => Ok(GetOr(t, "Unknown"))
    case QuestionScalar(_) => Err(NotAMapping)
  }

  /** The block rendered for one mistaken attempt. */
  function Block(a: AttemptDict): (r: string)
    requires QuestionReadable(a)
    ensures |r| > 0 && r[0] == '\n'
  {
    "\nTopic - " + TopicText(a).value
    + "\nMistake Type - " + GetOr(a.errorType, "Unknown")
    + "\nExplanation - " + GetOr(a.explanation, "No explanation provided")
    + "\nQuestion ID - " + GetOr(a.questionId, "Unknown")
    + "\n"
  }

  /** The list `formatted_attempts` ends up holding for a list of mistakes. */
  function Blocks(kept: seq<AttemptDict>): (r: seq<string>)
    requires forall k :: k in kept ==> QuestionReadable(k)
    ensures |r| == |kept|
  {
    if |kept| == 0 then []
    else Blocks(kept[..|kept| - 1]) + [Block(kept[|kept| - 1])]
  }

  /** Entry j of the list is the block of the j-th kept attempt. */
  lemma {:induction false} BlocksAt(kept: seq<AttemptDict>, j: nat)
    requires forall k :: k in kept ==> QuestionReadable(k)
    requires j < |kept|
    ensures Blocks(kept)[j] == Block(kept[j])
  {
    if j < |kept| - 1 {
      var init := kept[..|kept| - 1];
      assert init[j] == kept[j];
      BlocksAt(init, j);
    }
  }

  /** Blocks of two lists of mistakes are the blocks of each, one after the other. */
  lemma {:induction false} BlocksAppend(x: seq<AttemptDict>, y: seq<AttemptDict>)
    requires forall k :: k in x + y ==> QuestionReadable(k)
    ensures Blocks(x + y) == Blocks(x) + Blocks(y)
  {
    if |y| == 0 {
      assert x + y == x;
    } else {
      var y' := y[..|y| - 1];
      assert (x + y)[..|x + y| - 1] == x + y';
      assert (x + y)[|x + y| - 1] == y[|y| - 1];
      BlocksAppend(x, y');
    }
  }

  /** The list the loop has built after walking `attempts`: a block appended for
      every mistake, in order. */
  function LoopBlocks(attempts: seq<AttemptDict>): (r: seq<string>)
    requires forall j :: 0 <= j < |attempts| && IsMistake(attempts[j]) ==> QuestionReadable(attempts[j])
    ensures |r| <= |attempts|
  {
    if |attempts| == 0 then []
    else
      var n := |attempts| - 1;
      LoopBlocks(attempts[..n]) + (if IsMistake(attempts[n]) then [Block(attempts[n])] else [])
  }

  /** The loop's list is the list of blocks of the mistakes. */
  lemma {:induction false} LoopBlocksAreBlocks(attempts: seq<AttemptDict>)
    requires forall j :: 0 <= j < |attempts| && IsMistake(attempts[j]) ==> QuestionReadable(attempts[j])
    ensures forall k :: k in Mistakes(attempts) ==> QuestionReadable(k)
    ensures LoopBlocks(attempts) == Blocks(Mistakes(attempts))
  {
    if |attempts| > 0 {
      var n := |attempts| - 1;
      var init := attempts[..n];
      LoopBlocksAreBlocks(init);
      var kept := Mistakes(init);
      if IsMistake(attempts[n]) {
        assert Mistakes(attempts) == kept + [attempts[n]];
        assert (kept + [attempts[n]])[..|kept|] == kept;
      } else {
        assert Mistakes(attempts) == kept;
      }
    }
  }

  /** Some mistaken attempt carries a `question` the formatter cannot read. */
  predicate SomeUnreadable(attempts: seq<AttemptDict>)
  {
    exists i :: 0 <= i < |attempts| && IsMistake(attempts[i]) && !QuestionReadable(attempts[i])
  }

  lemma UnreadableConcat(a: seq<AttemptDict>, b: seq<AttemptDict>)
    ensures SomeUnreadable(a + b) <==> SomeUnreadable(a) || SomeUnreadable(b)
  {
    if SomeUnreadable(a + b) {
      var i :| 0 <= i < |a + b| && IsMistake((a + b)[i]) && !QuestionReadable((a + b)[i]);
      if i >= |a| {
        assert (a + b)[i] == b[i - |a|];
      }
    }
    if SomeUnreadable(a) {
      var i :| 0 <= i < |a| && IsMistake(a[i]) && !QuestionReadable(a[i]);
      assert (a + b)[i] == a[i];
    }
    if SomeUnreadable(b) {
      var i :| 0 <= i < |b| && IsMistake(b[i]) && !QuestionReadable(b[i]);
      assert (a + b)[|a| + i] == b[i];
    }
  }

  /** When no mistaken attempt is unreadable, every kept attempt is readable. */
  lemma ReadableMistakes(attempts: seq<AttemptDict>)
    requires !SomeUnreadable(attempts)
    ensures forall k :: k in Mistakes(attempts) ==> QuestionReadable(k)
  {
  }

  /** What `format_attempts_for_ai` returns or raises for `attempts`. */
  function Formatted(attempts: seq<AttemptDict>): (r: Result<string>)
    ensures r.Err? ==> r.failure == NotAMapping
  {
    if SomeUnreadable(attempts) then Err(NotAMapping)
    else
      var kept := Mistakes(attempts);
      if |kept| == 0 then Ok(NoMistakesMessage)
      else Ok(Join("\n", Blocks(kept)))
  }

  /** Once the loop has walked every attempt without raising, its list gives
      the formatter's result. */
  lemma FormattedFromLoop(attempts: seq<AttemptDict>)
    requires forall j :: 0 <= j < |attempts| && IsMistake(attempts[j]) ==> QuestionReadable(attempts[j])
    ensures Formatted(attempts) == if |LoopBlocks(attempts)| == 0 then Ok(NoMistakesMessage)
      else Ok(Join("\n", LoopBlocks(attempts)))
  {
    LoopBlocksAreBlocks(attempts);
  }

  /** The loop of `format_attempts_for_ai`, which stops at the first mistaken
      attempt whose `question` is not a dict. */
  method FormatAttemptsForAi(attempts: seq<AttemptDict>) returns (r: Result<string>)
    ensures r == Formatted(attempts)
  {
    var formatted: seq<string> := [];
    for i := 0 to |attempts|
      invariant forall j :: 0 <= j < i && IsMistake(attempts[j]) ==> QuestionReadable(attempts[j])
      invariant formatted == LoopBlocks(attempts[..i])
    {
      var attempt := attempts[i];
      assert attempts[..i + 1][..i] == attempts[..i];
      if IsMistake(attempt) {
        if attempt.question.QuestionScalar? {
          FormattedFailsIff(attempts);
          return Err(NotAMapping);
        }
        var topic := TopicText(attempt).value;
        var errorType := GetOr(attempt.errorType, "Unknown");
        var explanation := GetOr(attempt.explanation, "No explanation provided");
        var questionId := GetOr(attempt.questionId, "Unknown");
        var block := "\nTopic - " + topic + "\nMistake Type - " + errorType
          + "\nExplanation - " + explanation + "\nQuestion ID - " + questionId + "\n";
        assert block == Block(attempt);
        formatted := formatted + [block];
      }
    }
    assert attempts[..|attempts|] == attempts;
    FormattedFromLoop(attempts);
    if |formatted| == 0 {
      return Ok(NoMistakesMessage);
    }
    return Ok(Join("\n", formatted));
  }

  /** The formatter raises exactly when some mistaken attempt carries a
      `question` that is not a dict; other attempts are never inspected. */
  lemma FormattedFailsIff(attempts: seq<AttemptDict>)
    ensures Formatted(attempts).Err? <==>
      exists i :: 0 <= i < |attempts| && IsMistake(attempts[i]) && attempts[i].question.QuestionScalar?
    ensures Formatted(attempts).Err? ==> Formatted(attempts).failure == NotAMapping
  {
  }

  /** The fixed sentence comes back exactly when no attempt is a mistake. */
  lemma NoMistakesIff(attempts: seq<AttemptDict>)
    ensures Formatted(attempts) == Ok(NoMistakesMessage) <==>
      forall i :: 0 <= i < |attempts| ==> !IsMistake(attempts[i])
  {
    var kept := Mistakes(attempts);
    if forall i :: 0 <= i < |attempts| ==> !IsMistake(attempts[i]) {
      if |kept| > 0 {
        assert kept[0] in attempts;
      }
    } else if Formatted(attempts).Ok? {
      var i :| 0 <= i < |attempts| && IsMistake(attempts[i]);
      assert attempts[i] in kept;
      var blocks := Blocks(kept);
      BlocksAt(kept, 0);
      JoinStartsWithFirst("\n", blocks);
      assert Formatted(attempts).value[0] == '\n';
      assert NoMistakesMessage[0] == 'N';
    }
  }

  /** A single attempt: its block when it is a mistake, else the fixed sentence. */
  lemma FormattedSingle(a: AttemptDict)
    ensures IsMistake(a) && QuestionReadable(a) ==> Formatted([a]) == Ok(Block(a))
    ensures IsMistake(a) && !QuestionReadable(a) ==> Formatted([a]) == Err(NotAMapping)
    ensures !IsMistake(a) ==> Formatted([a]) == Ok(NoMistakesMessage)
  {
  }


  /** The blocks appear in input order: formatting a concatenation joins the
      two texts with one newline when both halves hold mistakes. */
  lemma FormattedConcat(a: seq<AttemptDict>, b: seq<AttemptDict>)
    requires Formatted(a).Ok? && Formatted(b).Ok?
    requires Mistakes(a) != [] && Mistakes(b) != []
    ensures Formatted(a + b) == Ok(Formatted(a).value + "\n" + Formatted(b).value)
  {
    UnreadableConcat(a, b);
    ReadableMistakes(a);
    ReadableMistakes(b);
    var ka, kb := Mistakes(a), Mistakes(b);
    FilterAppend(IsMistake, a, b);
    assert Mistakes(a + b) == ka + kb;
    BlocksAppend(ka, kb);
    var ba, bb := Blocks(ka), Blocks(kb);
    JoinAppend("\n", ba, bb);
  }

  /** Attempts that are not mistakes leave the text unchanged wherever they stand. */
  lemma FormattedIgnoresNonMistakes(a: seq<AttemptDict>, b: seq<AttemptDict>)
    requires forall i :: 0 <= i < |b| ==> !IsMistake(b[i])
    ensures Formatted(a + b) == Formatted(a)
    ensures Formatted(b + a) == Formatted(a)
  {
    UnreadableConcat(a, b);
    UnreadableConcat(b, a);
    FilterAppend(IsMistake, a, b);
    FilterAppend(IsMistake, b, a);
    FilterNone(IsMistake, b);
    assert Mistakes(a + b) == Mistakes(a);
    assert Mistakes(b + a) == Mistakes(a);
  }

  /** One block per mistake: the text is the join of exactly
      `Count(IsMistake, attempts)` blocks, the j-th for the j-th mistake. */
  lemma OneBlockPerMistake(attempts: seq<AttemptDict>)
    requires Formatted(attempts).Ok?
    requires Count(IsMistake, attempts) > 0
    ensures forall k :: k in Mistakes(attempts) ==> QuestionReadable(k)
    ensures |Blocks(Mistakes(attempts))| == Count(IsMistake, attempts)
    ensures forall j :: 0 <= j < |Mistakes(attempts)| ==>
      Blocks(Mistakes(attempts))[j] == Block(Mistakes(attempts)[j])
    ensures Formatted(attempts).value == Join("\n", Blocks(Mistakes(attempts)))
  {
    CountIsFilterLength(IsMistake, attempts);
    forall j | 0 <= j < |Mistakes(attempts)|
      ensures Blocks(Mistakes(attempts))[j] == Block(Mistakes(attempts)[j])
    {
      BlocksAt(Mistakes(attempts), j);
    }
  }
}
