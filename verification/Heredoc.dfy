/** A step's script is handed to the shell as a heredoc whose delimiter is searched for. */
module Heredoc {
  import opened Common
  import Decimal

  const Base := "CRABBOX_STEP"

  // ----- text as lines -----

  ghost predicate EndsLine(text: string, k: nat) {
    k <= |text| && (forall j | 0 <= j < k :: text[j] != '\n') && (k < |text| ==> text[k] == '\n')
  }

  /** Where the first line of a text ends. */
  function LineEnd(text: string): (k: nat)
    ensures k <= |text| && EndsLine(text, k)
  {
    if text == "" || text[0] == '\n' then 0 else 1 + LineEnd(text[1..])
  }

  function Lines(text: string): seq<string> {
    var k := LineEnd(text);
    [text[..k]] + if k == |text| then [] else Lines(text[k + 1..])
  }

  predicate OccursAt(text: string, part: string, i: nat) {
    i + |part| <= |text| && text[i..i + |part|] == part
  }

  /** The program's substring test. */
  predicate Contains(text: string, part: string) {
    exists i | 0 <= i <= |text| :: OccursAt(text, part, i)
  }

  function Padded(text: string): string {
    "\n" + text + "\n"
  }

  lemma FirstLineOccurs(script: string, d: string)
    requires '\n' !in d
    ensures OccursAt(Padded(script), Padded(d), 0) <==> d == script[..LineEnd(script)]
  {
    var text, k := script + "\n", LineEnd(script);
    assert Padded(script) == "\n" + text && Padded(d) == "\n" + (d + "\n");
    if OccursAt(Padded(script), Padded(d), 0) {
      assert Padded(script)[..|d| + 2] == Padded(d);
      assert forall j | 0 <= j < |d| :: d[j] in d && Padded(d)[j + 1] == d[j] && Padded(script)[j + 1] == text[j];
      assert text[|d|] == Padded(script)[|d| + 1] == Padded(d)[|d| + 1] == '\n';
      assert text[..|d|] == d;
      FirstBreak(text, |d|, k);
    }
    if d == script[..k] {
      assert Padded(script)[..|d| + 2] == Padded(d);
    }
  }

  lemma FirstBreak(text: string, a: nat, b: nat)
    requires EndsLine(text, a) && EndsLine(text, b)
    ensures a == b
  {
  }

  /** After the first line, the padded text is the padded rest. */
  lemma OccursBelow(script: string, d: string, k: nat, i: nat)
    requires k < |script| && script[k] == '\n' && i > k
    ensures OccursAt(Padded(script), d, i) <==> OccursAt(Padded(script[k + 1..]), d, i - k - 1)
  {
    var text, rest := Padded(script), Padded(script[k + 1..]);
    assert text[k + 1..] == rest;
    if i + |d| <= |text| {
      assert rest[i - k - 1..i - k - 1 + |d|] == text[i..i + |d|];
    }
  }

  /** A padded candidate does not start inside the first line. */
  lemma StartsAtBreak(script: string, d: string, k: nat, i: nat)
    requires EndsLine(script, k) && OccursAt(Padded(script), Padded(d), i) && i > 0
    ensures k < i && k < |script|
  {
    var text := Padded(script);
    assert text[i] == text[i..i + |d| + 2][0] == Padded(d)[0] == '\n';
    assert forall j | 1 <= j <= k :: text[j] == script[j - 1];
  }

  lemma {:induction false} OccurrenceIsLine(script: string, d: string, i: nat)
    requires '\n' !in d && OccursAt(Padded(script), Padded(d), i)
    ensures d in Lines(script)
    decreases |script|
  {
    var k := LineEnd(script);
    if i == 0 {
      FirstLineOccurs(script, d);
    } else {
      StartsAtBreak(script, d, k, i);
      OccursBelow(script, Padded(d), k, i);
      OccurrenceIsLine(script[k + 1..], d, i - k - 1);
    }
  }

  lemma {:induction false} LineOccurs(script: string, d: string) returns (i: nat)
    requires '\n' !in d && d in Lines(script)
    ensures OccursAt(Padded(script), Padded(d), i)
    decreases |script|
  {
    var k := LineEnd(script);
    if d == script[..k] {
      FirstLineOccurs(script, d);
      i := 0;
    } else {
      var j := LineOccurs(script[k + 1..], d);
      i := k + 1 + j;
      OccursBelow(script, Padded(d), k, i);
    }
  }

  /** The substring test on padded texts asks exactly whether the candidate is a line. */
  lemma ContainsIsLine(script: string, d: string)
    requires '\n' !in d
    ensures Contains(Padded(script), Padded(d)) <==> d in Lines(script)
  {
    if Contains(Padded(script), Padded(d)) {
      var i :| 0 <= i <= |Padded(script)| && OccursAt(Padded(script), Padded(d), i);
      OccurrenceIsLine(script, d, i);
    }
    if d in Lines(script) {
      var i := LineOccurs(script, d);
    }
  }

  // ----- the search -----

  function Candidate(n: nat): string {
    if n <= 1 then Base else Base + "_" + Decimal.FromNat(n)
  }

  lemma CandidateIsOneLine(n: nat)
    ensures '\n' !in Candidate(n)
  {
  }

  lemma CandidatesDiffer(m: nat, n: nat)
    requires 1 <= m < n
    ensures Candidate(m) != Candidate(n)
  {
    if Candidate(m) == Candidate(n) && m > 1 {
      var k := |Base| + 1;
      assert Candidate(m)[k..] == Decimal.FromNat(m) && Candidate(n)[k..] == Decimal.FromNat(n);
      Decimal.NatIsInjective(m, n);
    }
  }

  /** A finite set holds only so many candidates. */
  lemma {:induction false} CandidatesFit(lines: set<string>, n: nat)
    requires forall k: nat | 1 <= k <= n :: Candidate(k) in lines
    ensures n <= |lines|
  {
    if n > 0 {
      forall k: nat | 1 <= k <= n - 1
        ensures Candidate(k) in lines - {Candidate(n)}
      {
        CandidatesDiffer(k, n);
      }
      CandidatesFit(lines - {Candidate(n)}, n - 1);
    }
  }

  ghost function LineSet(script: string): set<string> {
    set line | line in Lines(script)
  }

  /** The first `n` candidates are lines of the script. */
  ghost predicate FirstTaken(script: string, n: nat) {
    forall k: nat | 1 <= k <= n :: Candidate(k) in LineSet(script)
  }

  lemma OneMoreTaken(script: string, n: nat)
    requires n >= 1 && FirstTaken(script, n - 1) && Contains(Padded(script), Padded(Candidate(n)))
    ensures FirstTaken(script, n) && n <= |LineSet(script)|
  {
    CandidateIsOneLine(n);
    ContainsIsLine(script, Candidate(n));
    CandidatesFit(LineSet(script), n);
  }

  /** The first candidate that is not a line of the script; the search ends on every script. */
  method Delimiter(script: string) returns (d: string)
    ensures d !in Lines(script) && '\n' !in d
    ensures exists n: nat :: n >= 1 && d == Candidate(n) && FirstTaken(script, n - 1)
  {
    d := Candidate(1);
    var i := 2;
    while Contains(Padded(script), Padded(d))
      invariant i >= 2 && d == Candidate(i - 1) && FirstTaken(script, i - 2)
      decreases |LineSet(script)| + 2 - i
    {
      OneMoreTaken(script, i - 1);
      d := Candidate(i);
      i := i + 1;
    }
    CandidateIsOneLine(i - 1);
    ContainsIsLine(script, d);
  }

  // ----- reading it back -----

  /** What a shell takes from its input for a quoted heredoc: the body, and what is left. */
  function ReadHeredoc(text: string, d: string): Option<(string, string)>
    decreases |text|
  {
    var k := LineEnd(text);
    var rest := if k < |text| then text[k + 1..] else "";
    if text[..k] == d then Some(("", rest))
    else if k == |text| then None
    else
      var more := ReadHeredoc(rest, d);
      if more.None? then None else Some((text[..k + 1] + more.value.0, more.value.1))
  }

  /** Reading a text one line at a time. */
  lemma ReadsLine(line: string, tail: string, d: string)
    requires '\n' !in line
    ensures var more := ReadHeredoc(tail, d);
            ReadHeredoc(line + "\n" + tail, d) ==
              if line == d then Some(("", tail))
              else if more.None? then None else Some((line + "\n" + more.value.0, more.value.1))
  {
    var text := line + "\n" + tail;
    assert forall j | 0 <= j < |line| :: line[j] in line && text[j] == line[j];
    FirstBreak(text, LineEnd(text), |line|);
    assert text[..|line|] == line && text[|line| + 1..] == tail && text[..|line| + 1] == line + "\n";
  }

  lemma FirstLineIsOne(script: string, k: nat)
    requires EndsLine(script, k)
    ensures '\n' !in script[..k]
    ensures k < |script| ==> script == script[..k] + "\n" + script[k + 1..]
  {
  }

  /** The heredoc reads back as the script and a newline, with nothing else consumed, exactly when the
      delimiter is not a line of the script. */
  lemma {:induction false} ReadsBackIff(script: string, d: string, rest: string)
    requires '\n' !in d
    ensures ReadHeredoc(Emitted(script, d, rest), d) == Some((script + "\n", rest)) <==> d !in Lines(script)
    decreases |script|
  {
    var k := LineEnd(script);
    FirstLineIsOne(script, k);
    if k == |script| {
      assert script[..k] == script && Emitted(script, d, rest) == script + "\n" + (d + "\n" + rest);
      ReadsLine(script, d + "\n" + rest, d);
      ReadsLine(d, rest, d);
      assert script + "\n" + "" == script + "\n";
    } else {
      ReadsBackIff(script[k + 1..], d, rest);
      ReadsBackFrom(script[..k], script[k + 1..], d, rest);
    }
  }

  /** What follows the line that opens the heredoc. */
  function Emitted(script: string, d: string, rest: string): string {
    script + "\n" + d + "\n" + rest
  }

  lemma ReadsBackFrom(line: string, below: string, d: string, rest: string)
    requires '\n' !in line
    ensures ReadHeredoc(Emitted(line + "\n" + below, d, rest), d) == Some((line + "\n" + below + "\n", rest)) <==>
            line != d && ReadHeredoc(Emitted(below, d, rest), d) == Some((below + "\n", rest))
  {
    var tail := Emitted(below, d, rest);
    assert Emitted(line + "\n" + below, d, rest) == line + "\n" + tail;
    ReadsLine(line, tail, d);
    var more := ReadHeredoc(tail, d);
    if more.Some? {
      SamePrefix(line + "\n", more.value.0, below + "\n");
    }
    assert line + "\n" + (below + "\n") == line + "\n" + below + "\n";
  }

  lemma SamePrefix(prefix: string, a: string, b: string)
    ensures prefix + a == prefix + b <==> a == b
  {
    assert (prefix + a)[|prefix|..] == a && (prefix + b)[|prefix|..] == b;
  }

  // ----- the printer -----

  /** The command line that opens the heredoc. */
  function Header(shell: string, workdir: string, d: string): string {
    (if TrimSpace(shell) == "sh" then "__crabbox_run_sh " else "__crabbox_run_bash ") + workdir + " <<'" + d + "'\n"
  }

  /** Appends one run step; the shell that later reads the script gets the step's text, a newline, and is
      left exactly where the next step begins. */
  method AppendRunStep(before: string, shell: string, workdir: string, script: string)
    returns (r: Option<string>, d: string)
    ensures r.None? <==> TrimSpace(shell) != "" && TrimSpace(shell) != "bash" && TrimSpace(shell) != "sh"
    ensures r.Some? ==> before + Header(shell, workdir, d) <= r.value
    ensures r.Some? ==>
              forall rest :: ReadHeredoc(r.value[|before + Header(shell, workdir, d)|..] + rest, d) ==
                             Some((script + "\n", rest))
  {
    d := Delimiter(script);
    var name := TrimSpace(shell);
    if name == "" || name == "bash" || name == "sh" {
      var header, body := Header(shell, workdir, d), script + "\n" + d + "\n";
      r := Some(before + header + body);
      assert r.value[|before + header|..] == body;
      forall rest
        ensures ReadHeredoc(body + rest, d) == Some((script + "\n", rest))
      {
        ReadsBackIff(script, d, rest);
        assert body + rest == script + "\n" + d + "\n" + rest;
      }
    } else {
      r := None;
    }
  }
}
