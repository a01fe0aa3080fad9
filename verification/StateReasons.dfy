/** State reasons and their severity (model.rs; section 5.4.12 of RFC 8011 for the suffixes). */
module StateReasons {
  import opened Wrappers

  datatype Severity = Report | Warning | Error
  datatype StateReason = StateReason(keyword: string, severity: Severity)

  predicate EndsWith(s: string, suffix: string) {
    |suffix| <= |s| && s[|s| - |suffix|..] == suffix
  }

  function Stem(s: string, suffix: string): string
    requires EndsWith(s, suffix)
  {
    s[..|s| - |suffix|]
  }

  function Parse(raw: string): StateReason {
    if EndsWith(raw, "-error") then StateReason(Stem(raw, "-error"), Error)
    else if EndsWith(raw, "-warning") then StateReason(Stem(raw, "-warning"), Warning)
    else if EndsWith(raw, "-report") then StateReason(Stem(raw, "-report"), Report)
    else StateReason(raw, Report)
  }

  function ParseList(raw: seq<string>): seq<StateReason> {
    if raw == [] then []
    else (if raw[0] != "none" then [Parse(raw[0])] else []) + ParseList(raw[1..])
  }

  function Rank(s: Option<Severity>): int {
    match s
    case None => 0
    case Some(Report) => 1
    case Some(Warning) => 2
    case Some(Error) => 3
  }

  function Worse(a: Option<Severity>, b: Option<Severity>): Option<Severity> {
    if Rank(a) < Rank(b) then b else a
  }

  function HighestSeverity(reasons: seq<StateReason>): Option<Severity> {
    if reasons == [] then None else Worse(Some(reasons[0].severity), HighestSeverity(reasons[1..]))
  }

  /** Keyword and severity rebuild the raw reason; one with none of the three suffixes is its own keyword. */
  lemma Rebuilds(raw: string)
    ensures var r := Parse(raw);
            match r.severity
            case Error => raw == r.keyword + "-error"
            case Warning => raw == r.keyword + "-warning"
            case Report => raw == if EndsWith(raw, "-report") then r.keyword + "-report" else r.keyword
    ensures Parse(raw).severity == Error <==> EndsWith(raw, "-error")
    ensures Parse(raw).severity == Warning <==> EndsWith(raw, "-warning")
  {
    LastOf(raw, "-error");
    LastOf(raw, "-warning");
  }

  lemma LastOf(raw: string, suffix: string)
    requires suffix != ""
    ensures EndsWith(raw, suffix) ==> raw[|raw| - 1] == suffix[|suffix| - 1]
  {
    if EndsWith(raw, suffix) {
      assert raw[|raw| - |suffix|..][|suffix| - 1] == suffix[|suffix| - 1];
    }
  }

  lemma {:induction false} HighestAppend(a: seq<StateReason>, b: seq<StateReason>)
    ensures HighestSeverity(a + b) == Worse(HighestSeverity(a), HighestSeverity(b))
  {
    if a == [] {
      assert a + b == b;
    } else {
      assert (a + b)[1..] == a[1..] + b;
      HighestAppend(a[1..], b);
    }
  }

  lemma {:induction false} ParseListAppend(x: seq<string>, y: seq<string>)
    ensures ParseList(x + y) == ParseList(x) + ParseList(y)
  {
    if x == [] {
      assert x + y == y;
    } else {
      assert (x + y)[1..] == x[1..] + y;
      ParseListAppend(x[1..], y);
    }
  }

  /** Every entry of a list is parsed, in order, but for the word none. */
  lemma ParsedInOrder(x: seq<string>, raw: string)
    ensures ParseList(x + [raw]) == ParseList(x) + if raw == "none" then [] else [Parse(raw)]
  {
    ParseListAppend(x, [raw]);
    assert [raw][1..] == [];
  }

  /** Over two lists together the worst is the worse of the two worsts. */
  lemma WorstOfBoth(x: seq<string>, y: seq<string>)
    ensures HighestSeverity(ParseList(x + y)) == Worse(HighestSeverity(ParseList(x)), HighestSeverity(ParseList(y)))
  {
    ParseListAppend(x, y);
    HighestAppend(ParseList(x), ParseList(y));
  }

  /** An entry that counts, at least as bad as `k`. */
  predicate AtLeast(r: string, k: int) {
    r != "none" && Rank(Some(Parse(r).severity)) >= k
  }

  lemma {:induction false} WorstRank(raw: seq<string>, k: int)
    requires k >= 1
    ensures Rank(HighestSeverity(ParseList(raw))) >= k <==> exists i :: 0 <= i < |raw| && AtLeast(raw[i], k)
  {
    if raw != [] {
      var rest := raw[1..];
      WorstRank(rest, k);
      HighestAppend(if raw[0] != "none" then [Parse(raw[0])] else [], ParseList(rest));
      assert forall i | 0 <= i < |rest| :: rest[i] == raw[i + 1];
      if i :| 0 <= i < |rest| && AtLeast(rest[i], k) {
        assert AtLeast(raw[i + 1], k);
      }
    }
  }

  lemma NoneUnmarked()
    ensures !EndsWith("none", "-error") && !EndsWith("none", "-warning")
  {
    assert |"none"| == 4 && |"-error"| == 6 && |"-warning"| == 8;
  }

  lemma Ranked(r: string, error: bool, warning: bool)
    requires (Parse(r).severity == Error <==> error) && (Parse(r).severity == Warning <==> warning)
    requires r == "none" ==> !error && !warning
    ensures AtLeast(r, 3) <==> error
    ensures AtLeast(r, 2) <==> error || warning
    ensures AtLeast(r, 1) <==> r != "none"
  {
  }

  lemma Marks(r: string)
    ensures AtLeast(r, 3) <==> EndsWith(r, "-error")
    ensures AtLeast(r, 2) <==> EndsWith(r, "-error") || EndsWith(r, "-warning")
    ensures AtLeast(r, 1) <==> r != "none"
  {
    Rebuilds(r);
    NoneUnmarked();
    Ranked(r, EndsWith(r, "-error"), EndsWith(r, "-warning"));
  }

  function Worst(raw: seq<string>): Option<Severity> {
    HighestSeverity(ParseList(raw))
  }

  lemma WorstAtLeast(raw: seq<string>, k: int)
    requires k >= 1
    ensures Rank(Worst(raw)) >= k <==> exists r :: r in raw && AtLeast(r, k)
  {
    WorstRank(raw, k);
    if i :| 0 <= i < |raw| && AtLeast(raw[i], k) {
      assert raw[i] in raw;
    }
  }

  lemma WorstError(raw: seq<string>)
    ensures Rank(Worst(raw)) >= 3 <==> exists r :: r in raw && EndsWith(r, "-error")
  {
    WorstAtLeast(raw, 3);
    forall r { Marks(r); }
  }

  lemma WorstWarning(raw: seq<string>)
    ensures Rank(Worst(raw)) >= 2 <==>
            (exists r :: r in raw && EndsWith(r, "-error")) || exists r :: r in raw && EndsWith(r, "-warning")
  {
    WorstAtLeast(raw, 2);
    forall r { Marks(r); }
  }

  lemma WorstNone(raw: seq<string>)
    ensures Rank(Worst(raw)) >= 1 <==> exists r :: r in raw && r != "none"
  {
    WorstAtLeast(raw, 1);
    forall r { Marks(r); }
  }

  /** The worst severity, read off the raw reasons themselves. */
  lemma WorstExactly(raw: seq<string>)
    ensures var worst := Worst(raw);
            && (worst == Some(Error) <==> exists r :: r in raw && EndsWith(r, "-error"))
            && (worst == None <==> forall r | r in raw :: r == "none")
            && (worst == Some(Warning) <==>
                (exists r :: r in raw && EndsWith(r, "-warning")) && !exists r :: r in raw && EndsWith(r, "-error"))
  {
    WorstError(raw);
    WorstWarning(raw);
    WorstNone(raw);
  }
}
