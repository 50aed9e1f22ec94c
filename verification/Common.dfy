/** Failure-compatible results, and the small library of facts every other module uses. */
module Common {

  datatype Option<+T> = None | Some(value: T)

  /** The error classes the services raise.  `Broken` is a failed internal `assert`. */
  datatype Error = NotFound | NotAllowed | Invalid | Duplicate | Conflict | Broken | Credentials

  datatype Result<+T> = Ok(value: T) | Err(error: Error) {
    predicate IsFailure() { Err? }

    function PropagateFailure<U>(): Result<U>
      requires Err?
    {
      Err(error)
    }

    function Extract(): T
      requires Ok?
    {
      value
    }
  }

  /** `xs` lists `s`: every member exactly once, in some order.  This is all a query
      without an ORDER BY promises about its rows. */
  ghost predicate Enumerates<T(!new)>(xs: seq<T>, s: set<T>) {
    && (forall x :: x in xs <==> x in s)
    && NoDuplicates(xs)
  }

  ghost predicate NoDuplicates<T>(xs: seq<T>) {
    forall i, j :: 0 <= i < j < |xs| ==> xs[i] != xs[j]
  }

  /** A list of distinct rows is as long as the set it lists. */
  lemma {:induction false} EnumerationSize<T(!new)>(xs: seq<T>, s: set<T>)
    requires Enumerates(xs, s)
    ensures |xs| == |s|
  {
    if xs == [] {
      assert s == {};
    } else {
      var rest := s - {xs[0]};
      forall x ensures x in xs[1..] <==> x in rest {
        if x in xs[1..] {
          var i :| 0 <= i < |xs[1..]| && xs[1..][i] == x;
          assert xs[i + 1] == x;
        }
        if x in rest {
          var i :| 0 <= i < |xs| && xs[i] == x;
          assert xs[1..][i - 1] == x;
        }
      }
      EnumerationSize(xs[1..], rest);
    }
  }

  // ------------------------------------------------------------------ stripping blanks

  predicate IsSpace(c: char) {
    c in {' ', '\t', '\n', '\r'}
  }

  function StripStart(s: string): string {
    if s != "" && IsSpace(s[0]) then StripStart(s[1..]) else s
  }

  function StripEnd(s: string): string {
    if s != "" && IsSpace(s[|s| - 1]) then StripEnd(s[..|s| - 1]) else s
  }

  function Strip(s: string): string {
    StripEnd(StripStart(s))
  }

  predicate Trimmed(s: string) {
    s != "" ==> !IsSpace(s[0]) && !IsSpace(s[|s| - 1])
  }

  predicate Blank(s: string) {
    forall c :: c in s ==> IsSpace(c)
  }

  lemma {:induction false} StripStartExactly(s: string)
    ensures exists a :: Blank(a) && s == a + StripStart(s)
    ensures StripStart(s) != "" ==> !IsSpace(StripStart(s)[0])
    decreases |s|
  {
    if s != "" && IsSpace(s[0]) {
      StripStartExactly(s[1..]);
      var a :| Blank(a) && s[1..] == a + StripStart(s);
      assert s == ([s[0]] + a) + StripStart(s) && Blank([s[0]] + a);
    } else {
      assert s == "" + s && Blank("");
    }
  }

  lemma {:induction false} StripEndExactly(s: string)
    ensures exists b :: Blank(b) && s == StripEnd(s) + b
    ensures StripEnd(s) != "" ==> !IsSpace(StripEnd(s)[|StripEnd(s)| - 1])
    decreases |s|
  {
    if s != "" && IsSpace(s[|s| - 1]) {
      StripEndExactly(s[..|s| - 1]);
      var b :| Blank(b) && s[..|s| - 1] == StripEnd(s) + b;
      assert s == StripEnd(s) + (b + [s[|s| - 1]]) && Blank(b + [s[|s| - 1]]);
    } else {
      assert s == s + "" && Blank("");
    }
  }

  /** Stripping takes the blanks off both ends and nothing else. */
  lemma StripExactly(s: string)
    ensures Trimmed(Strip(s))
    ensures exists a, b :: Blank(a) && Blank(b) && s == a + Strip(s) + b
  {
    StripStartExactly(s);
    StripEndExactly(StripStart(s));
    var a :| Blank(a) && s == a + StripStart(s);
    var b :| Blank(b) && StripStart(s) == Strip(s) + b;
    assert s == a + Strip(s) + b;
    if Strip(s) != "" {
      assert StripStart(s)[0] == Strip(s)[0];
    }
  }

  /** A text strips to nothing exactly when it has blanks only. */
  lemma StripsToNothing(s: string)
    ensures Strip(s) == "" <==> Blank(s)
  {
    StripExactly(s);
    var a, b :| Blank(a) && Blank(b) && s == a + Strip(s) + b;
    if Strip(s) != "" {
      assert s[|a|] == Strip(s)[0];
      assert s[|a|] in s;
    }
  }

  lemma StripTrimmed(s: string)
    requires Trimmed(s)
    ensures Strip(s) == s
  {}

  lemma StripTwice(s: string)
    ensures Strip(Strip(s)) == Strip(s)
  {
    StripExactly(s);
    StripTrimmed(Strip(s));
  }

  /** The stripped text or, if nothing is left, the other one. */
  function StripOr(s: string, other: string): string {
    if Strip(s) == "" then other else Strip(s)
  }
}
