/** Which errors are retried: the hand-written substring search and the Cloudflare rules. */
module RetryErrors {
  import opened Common

  predicate OccursAt(s: string, sub: string, i: int) {
    0 <= i <= |s| - |sub| && s[i..i + |sub|] == sub
  }

  predicate Occurs(s: string, sub: string) {
    exists i | 0 <= i <= |s| - |sub| :: OccursAt(s, sub, i)
  }

  /** The first position of `sub`, or -1. */
  method IndexInString(s: string, sub: string) returns (r: int)
    ensures r == -1 ==> !Occurs(s, sub)
    ensures r != -1 ==> OccursAt(s, sub, r) && forall i | 0 <= i < r :: !OccursAt(s, sub, i)
  {
    for i := 0 to if |s| < |sub| then 0 else |s| - |sub| + 1
      invariant forall k | 0 <= k < i :: !OccursAt(s, sub, k)
    {
      if s[i..i + |sub|] == sub {
        return i;
      }
    }
    r := -1;
  }

  /** contains: the shortcuts for equal strings, prefixes and suffixes change nothing. */
  method Contains(s: string, sub: string) returns (r: bool)
    ensures r <==> Occurs(s, sub)
  {
    if |s| < |sub| {
      return false;
    }
    if s == sub {
      assert OccursAt(s, sub, 0);
      return true;
    }
    if |s| <= |sub| {
      assert |s| == |sub| && s[0..|sub|] == s;
      return false;
    }
    if s[..|sub|] == sub {
      assert OccursAt(s, sub, 0);
      return true;
    }
    if s[|s| - |sub|..] == sub {
      assert OccursAt(s, sub, |s| - |sub|);
      return true;
    }
    var i := IndexInString(s, sub);
    r := i != -1;
  }

  /** Network trouble, HTTP 5xx, rate limiting. */
  const TRANSIENT: seq<string> :=
    ["connection refused", "timeout", "temporary failure", "network is unreachable",
     "500", "502", "503", "504", "429", "rate limit"]

  /** Authentication trouble and other client errors. */
  const PERMANENT: seq<string> :=
    ["401", "403", "unauthorized", "forbidden", "400", "404", "422"]

  predicate Mentions(s: string, markers: seq<string>) {
    exists i | 0 <= i < |markers| :: Occurs(s, markers[i])
  }

  /** A transient marker wins over any permanent one; an error with neither is retried. */
  predicate CloudflareRetryable(err: Err) {
    err.Error? && !err.isContext && (Mentions(err.message, TRANSIENT) || !Mentions(err.message, PERMANENT))
  }

  lemma MentionsTransient(s: string)
    ensures Mentions(s, TRANSIENT) <==>
            || Occurs(s, "connection refused") || Occurs(s, "timeout") || Occurs(s, "temporary failure")
            || Occurs(s, "network is unreachable") || Occurs(s, "500") || Occurs(s, "502") || Occurs(s, "503")
            || Occurs(s, "504") || Occurs(s, "429") || Occurs(s, "rate limit")
  {
    hide Occurs;
    var m := TRANSIENT;
    assert Mentions(s, m) <==>
           (|| Occurs(s, m[0]) || Occurs(s, m[1]) || Occurs(s, m[2]) || Occurs(s, m[3]) || Occurs(s, m[4])
            || Occurs(s, m[5]) || Occurs(s, m[6]) || Occurs(s, m[7]) || Occurs(s, m[8]) || Occurs(s, m[9]));
  }

  lemma MentionsPermanent(s: string)
    ensures Mentions(s, PERMANENT) <==>
            || Occurs(s, "401") || Occurs(s, "403") || Occurs(s, "unauthorized") || Occurs(s, "forbidden")
            || Occurs(s, "400") || Occurs(s, "404") || Occurs(s, "422")
  {
    hide Occurs;
    var m := PERMANENT;
    assert Mentions(s, m) <==>
           (|| Occurs(s, m[0]) || Occurs(s, m[1]) || Occurs(s, m[2]) || Occurs(s, m[3]) || Occurs(s, m[4])
            || Occurs(s, m[5]) || Occurs(s, m[6]));
  }

  /** Exactly the errors that are not retried: those of the context, and those that mention a client
      error and nothing transient. */
  lemma GivenUpExactly(err: Err)
    requires err.Error?
    ensures !CloudflareRetryable(err) <==>
            err.isContext ||
            (var s := err.message;
             && (|| Occurs(s, "401") || Occurs(s, "403") || Occurs(s, "unauthorized") || Occurs(s, "forbidden")
                 || Occurs(s, "400") || Occurs(s, "404") || Occurs(s, "422"))
             && !(|| Occurs(s, "connection refused") || Occurs(s, "timeout") || Occurs(s, "temporary failure")
                  || Occurs(s, "network is unreachable") || Occurs(s, "500") || Occurs(s, "502")
                  || Occurs(s, "503") || Occurs(s, "504") || Occurs(s, "429") || Occurs(s, "rate limit")))
  {
    hide Occurs, Mentions;
    MentionsTransient(err.message);
    MentionsPermanent(err.message);
  }

  /** A chain of `contains` calls joined by ||. */
  method MentionsAny(s: string, markers: seq<string>) returns (r: bool)
    ensures r <==> Mentions(s, markers)
  {
    for i := 0 to |markers|
      invariant forall k | 0 <= k < i :: !Occurs(s, markers[k])
    {
      var found := Contains(s, markers[i]);
      if found {
        return true;
      }
    }
    r := false;
  }

  /** The checks in the order of the source. */
  method CheckCloudflare(err: Err) returns (r: bool)
    ensures r <==> CloudflareRetryable(err)
  {
    if err.NoError? || err.isContext {
      return false;
    }
    var transient := MentionsAny(err.message, TRANSIENT);
    if transient {
      return true;
    }
    var permanent := MentionsAny(err.message, PERMANENT);
    r := !permanent;
  }

  /** What the limiter and the breaker return. */
  const ERR_RATE_LIMITED := Error("rate limit exceeded", false)
  const ERR_BREAKER_OPEN := Error("circuit breaker is open", false)

  /** A refused token is retried. */
  lemma RateLimitedIsRetried()
    ensures CloudflareRetryable(ERR_RATE_LIMITED)
  {
    var s, sub := "rate limit exceeded", "rate limit";
    assert s[0..0 + |sub|] == sub;
    assert OccursAt(s, sub, 0);
    assert TRANSIENT[9] == sub;
  }

  /** A marker with a character the message lacks does not occur in it. */
  lemma LacksCharacter(s: string, sub: string, j: nat)
    requires j < |sub| && sub[j] !in s
    ensures !Occurs(s, sub)
  {
    forall i | 0 <= i <= |s| - |sub|
      ensures !OccursAt(s, sub, i)
    {
      assert s[i..i + |sub|][j] == s[i + j];
    }
  }

  lemma NothingPermanent(s: string)
    requires '4' !in s && 'f' !in s && 'z' !in s
    ensures !Mentions(s, PERMANENT)
  {
    forall i | 0 <= i < |PERMANENT|
      ensures !Occurs(s, PERMANENT[i])
    {
      LacksCharacter(s, PERMANENT[i], if i == 2 then 9 else 0);
    }
  }

  lemma LacksInParts(s: string, t: string, c: char)
    requires c !in s && c !in t
    ensures c !in s + t
  {
  }

  lemma NotPermanentIsRetried(err: Err)
    requires err.Error? && !err.isContext && !Mentions(err.message, PERMANENT)
    ensures CloudflareRetryable(err)
  {
  }

  /** An open circuit breaker does not stop the retries: its message mentions nothing permanent. */
  lemma BreakerOpenIsRetried()
    ensures CloudflareRetryable(ERR_BREAKER_OPEN)
  {
    var s, t, u := "circuit", " breaker", " is open";
    assert ERR_BREAKER_OPEN.message == s + t + u;
    hide CloudflareRetryable, Mentions;
    forall c | c in {'4', 'f', 'z'}
      ensures c !in s + t + u
    {
      LacksInParts(s, t, c);
      LacksInParts(s + t, u, c);
    }
    NothingPermanent(s + t + u);
    NotPermanentIsRetried(ERR_BREAKER_OPEN);
  }

  // ----- Upper and lower case -----

  predicate Letter(c: char) {
    'a' <= c <= 'z' || 'A' <= c <= 'Z'
  }

  function LowerChar(c: char): char {
    if 'A' <= c <= 'Z' then c + ' ' else c
  }

  /** The letter c in the other case. */
  function Flipped(c: char): (d: char)
    requires Letter(c)
    ensures d != c && LowerChar(d) == LowerChar(c)
  {
    if c <= 'Z' then c + ' ' else c - ' '
  }

  function Lower(s: string): (r: string)
    ensures |r| == |s| && forall i | 0 <= i < |s| :: r[i] == LowerChar(s[i])
  {
    seq(|s|, i requires 0 <= i < |s| => LowerChar(s[i]))
  }

  /** A marker without letters is found at the same places with and without regard to case. */
  lemma LetterFree(s: string, sub: string, i: int)
    requires forall j | 0 <= j < |sub| :: !Letter(sub[j])
    ensures OccursAt(s, sub, i) <==> OccursAt(Lower(s), Lower(sub), i)
  {
    if 0 <= i <= |s| - |sub| {
      var here, low := s[i..i + |sub|], Lower(s)[i..i + |sub|];
      if low == Lower(sub) {
        forall j | 0 <= j < |sub|
          ensures here[j] == sub[j]
        {
          assert low[j] == LowerChar(here[j]) == LowerChar(sub[j]);
        }
      }
    }
  }

  /** A marker in which letter j is in the other case. */
  lemma OtherCase(sub: string, j: nat) returns (s: string)
    requires j < |sub| && Letter(sub[j])
    ensures !Occurs(s, sub) && Occurs(Lower(s), Lower(sub))
  {
    s := sub[j := Flipped(sub[j])];
    assert s[0..|sub|][j] != sub[j];
    assert Lower(s) == Lower(sub) == Lower(sub)[0..|sub|];
    assert OccursAt(Lower(s), Lower(sub), 0);
  }

  /** The comment in the source promises a search without regard to case.  It is one exactly for
      the markers without a letter. */
  lemma SearchIsCaseSensitive(sub: string)
    ensures (forall s :: Occurs(s, sub) <==> Occurs(Lower(s), Lower(sub))) <==>
            forall j | 0 <= j < |sub| :: !Letter(sub[j])
  {
    if j :| 0 <= j < |sub| && Letter(sub[j]) {
      var s := OtherCase(sub, j);
    } else {
      forall s
        ensures Occurs(s, sub) <==> Occurs(Lower(s), Lower(sub))
      {
        forall i {
          LetterFree(s, sub, i);
        }
      }
    }
  }

  /** For one: "Timeout" is no timeout. */
  lemma TimeoutIsMissed()
    ensures !Occurs("Timeout", "timeout") && Occurs(Lower("Timeout"), "timeout")
  {
    var s, sub := "Timeout", "timeout";
    assert s[0..7][0] != sub[0];
    assert Lower(s) == sub == sub[0..7];
    assert OccursAt(Lower(s), sub, 0);
  }
}
