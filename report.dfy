/** `generate_report`: the language model's analysis of the formatted mistakes
    when it answers, otherwise a fixed report built from three counts. */
module Report {
  import opened Common
  import opened PyValues
  import opened MistakeFormat

  /** `attempt.get('error_type') == 'silly'`: the key is present with that string,
      so the attempt is also one the formatter writes a block for. */
  predicate IsSilly(a: AttemptDict)
    ensures IsSilly(a) <==> a.errorType == Present(Str("silly"))
    ensures IsSilly(a) ==> IsMistake(a)
  {
    GetValue(a.errorType) == Str("silly")
  }

  /** `attempt.get('error_type') == 'concept'`, which likewise implies a block. */
  predicate IsConcept(a: AttemptDict)
    ensures IsConcept(a) <==> a.errorType == Present(Str("concept"))
    ensures IsConcept(a) ==> IsMistake(a) && !IsSilly(a)
  {
    GetValue(a.errorType) == Str("concept")
  }

  /** `silly_mistakes`: how many of the attempts are silly mistakes. */
  function SillyCount(attempts: seq<AttemptDict>): (n: nat)
    ensures n <= |attempts|
    ensures n == |Filter(IsSilly, attempts)|
  {
    CountIsFilterLength(IsSilly, attempts);
    Count(IsSilly, attempts)
  }

  /** `concept_errors`: how many of the attempts are concept errors. */
  function ConceptCount(attempts: seq<AttemptDict>): (n: nat)
    ensures n <= |attempts|
    ensures n == |Filter(IsConcept, attempts)|
  {
    CountIsFilterLength(IsConcept, attempts);
    Count(IsConcept, attempts)
  }

  /** Every silly or concept attempt is one the formatter writes a block for,
      so the two fallback counts together never exceed the number of blocks,
      which never exceeds the total the report quotes. */
  lemma {:induction false} FallbackCountsBounded(attempts: seq<AttemptDict>)
    ensures SillyCount(attempts) + ConceptCount(attempts) <= Count(IsMistake, attempts)
    ensures Count(IsMistake, attempts) <= |attempts|
  {
    CountDisjointBound(IsSilly, IsConcept, IsMistake, attempts);
  }

  const Bullet: string := "\U{2022} "

  /** The fixed text before the number of attempts. */
  const SummaryHead: string :=
    "**Overall Summary:**\n"
    + "Based on your recent practice sessions, "
    + "you completed "

  const AfterTotal: string := " questions. You made "

  const AfterSilly: string := " silly mistakes and "

  /** The fixed text after the number of concept errors, to the end of the report. */
  const AfterConcept: string := " concept errors.\n" + Advice

  /** The advice that closes the fallback report. */
  const Advice: string :=
    "\n"
    + "**Key Areas for Improvement:**\n"
    + "- Focus on double-checking your work "
    + "to avoid silly mistakes\n"
    + "- Review fundamental concepts "
    + "where you had difficulties\n"
    + "- Practice more problems in topics "
    + "where you made errors\n"
    + "\n"
    + "**General Advice:**\n"
    + Bullet + "Take your time when working "
    + "through problems\n"
    + Bullet + "Show all working steps "
    + "to catch errors early\n"
    + Bullet + "Review your mistakes "
    + "to understand what went wrong\n"
    + Bullet + "Practice regularly "
    + "to build confidence\n"
    + "\n"
    + "Remember: Every mistake is a "
    + "learning opportunity. Keep practicing "
    + "and you'll continue to improve!\n"
    + "\n"
    + "*Note: This is a basic report. "
    + "For detailed AI analysis, please check "
    + "your AWS Bedrock configuration.*"

  /** A template of four fixed texts with three numbers between them, filled in. */
  function FillTemplate(head: string, sep1: string, sep2: string, tail: string,
                        a: nat, b: nat, c: nat): string
  {
    head + (NatToDecimal(a) + (sep1 + (NatToDecimal(b) + (sep2 + (NatToDecimal(c) + tail)))))
  }

  /** The fallback template with its three numbers filled in. */
  function FallbackText(total: nat, silly: nat, concept: nat): string
  {
    FillTemplate(SummaryHead, AfterTotal, AfterSilly, AfterConcept, total, silly, concept)
  }

  /** The report used when the model gives no usable answer. It quotes the
      number of attempts and the silly and concept counts, and from it they can
      be recovered. */
  function FallbackReport(attempts: seq<AttemptDict>): (r: string)
    ensures ParseFallback(r)
      == Some(FallbackCounts(|attempts|, SillyCount(attempts), ConceptCount(attempts)))
  {
    ParseFallbackText(|attempts|, SillyCount(attempts), ConceptCount(attempts));
    FallbackText(|attempts|, SillyCount(attempts), ConceptCount(attempts))
  }

  datatype FallbackCounts = FallbackCounts(total: nat, silly: nat, concept: nat)

  /** Reads the decimal number `s` starts with and the fixed text `sep` after it;
      gives the number and what follows `sep`. */
  function ReadNumberThen(s: string, sep: string): Option<(nat, string)>
  {
    var k := LeadingDigits(s);
    if k == 0 || !(sep <= s[k..]) then None
    else Some((DecimalValue(s[..k]), s[k + |sep|..]))
  }

  lemma ReadNumberThenDecimal(n: nat, sep: string, rest: string)
    requires |sep| > 0 && !IsDigit(sep[0])
    ensures ReadNumberThen(NatToDecimal(n) + (sep + rest), sep) == Some((n, rest))
  {
    var d := NatToDecimal(n);
    var s := d + (sep + rest);
    LeadingDigitsOfRun(d, sep + rest);
    assert LeadingDigits(s) == |d|;
    assert s[..|d|] == d;
    assert s[|d|..] == sep + rest;
    assert sep <= s[|d|..];
    assert s[|d| + |sep|..] == rest;
    DecimalRoundTrip(n);
  }

  /** Reads the three numbers back out of a filled-in template. */
  function ReadTemplate(r: string, head: string, sep1: string, sep2: string, tail: string)
    : Option<FallbackCounts>
  {
    if !(head <= r) then None
    else
      match ReadNumberThen(r[|head|..], sep1)
      case None => None
      case Some((a, r1)) =>
        match ReadNumberThen(r1, sep2)
        case None => None
        case Some((b, r2)) =>
          match ReadNumberThen(r2, tail)
          case None => None
          case Some((c, r3)) =>
            if r3 == [] then Some(FallbackCounts(a, b, c)) else None
  }

  /** Reads the three numbers back out of a fallback report. */
  function ParseFallback(r: string): Option<FallbackCounts>
  {
    ReadTemplate(r, SummaryHead, AfterTotal, AfterSilly, AfterConcept)
  }

  /** Reading a filled-in template gives back its numbers, provided no fixed
      text after a number starts with a digit. */
  lemma ReadFillTemplate(head: string, sep1: string, sep2: string, tail: string,
                         a: nat, b: nat, c: nat)
    requires |sep1| > 0 && !IsDigit(sep1[0])
    requires |sep2| > 0 && !IsDigit(sep2[0])
    requires |tail| > 0 && !IsDigit(tail[0])
    ensures ReadTemplate(FillTemplate(head, sep1, sep2, tail, a, b, c), head, sep1, sep2, tail)
      == Some(FallbackCounts(a, b, c))
  {
    var tail3 := NatToDecimal(c) + tail;
    var tail2 := NatToDecimal(b) + (sep2 + tail3);
    var tail1 := NatToDecimal(a) + (sep1 + tail2);
    var r := FillTemplate(head, sep1, sep2, tail, a, b, c);
    assert r[|head|..] == tail1;
    ReadNumberThenDecimal(a, sep1, tail2);
    ReadNumberThenDecimal(b, sep2, tail3);
    assert tail + [] == tail;
    ReadNumberThenDecimal(c, tail, []);
  }

  /** The fallback template states its three numbers unambiguously: they can
      be read back from the text. */
  lemma ParseFallbackText(total: nat, silly: nat, concept: nat)
    ensures ParseFallback(FallbackText(total, silly, concept)) == Some(FallbackCounts(total, silly, concept))
  {
    assert AfterTotal[0] == ' ' && AfterSilly[0] == ' ' && AfterConcept[0] == ' ';
    ReadFillTemplate(SummaryHead, AfterTotal, AfterSilly, AfterConcept, total, silly, concept);
  }

  /** `not ai_response` fails to hold: a reply that is present and non-empty. */
  predicate ReplyTruthy(reply: Option<string>)
  {
    reply.Some? && reply.value != ""
  }

  /** The `/generate-report` handler. `bedrockConfigured` says whether a client
      was created at start-up; `converse` stands for `generate_ai_response` with
      the fixed system prompt, applied to the formatted mistakes. */
  function GenerateReport(attempts: seq<AttemptDict>, bedrockConfigured: bool,
                          converse: string -> Option<string>): (r: Result<string>)
    ensures r.Err? <==> Formatted(attempts).Err?
    ensures r.Err? ==> r.failure == NotAMapping
    ensures r.Ok? && !bedrockConfigured ==> r.value == FallbackReport(attempts)
    ensures r.Ok? && bedrockConfigured ==>
      var reply := converse(Formatted(attempts).value);
      r.value == if ReplyTruthy(reply) then reply.value else FallbackReport(attempts)
  {
    FormattedFailsIff(attempts);
    match Formatted(attempts)
    case Err(f) => Err(f)
    case Ok(formatted) =>
      var aiResponse := if bedrockConfigured then converse(formatted) else None;
      if ReplyTruthy(aiResponse) then Ok(aiResponse.value)
      else Ok(FallbackReport(attempts))
  }
}
