/** Names and the walk from a name up through its parents. */
module DomainNames {

  /** What follows the first dot; the caller has checked that there is one. */
  function AfterDot(d: string): (r: string)
    requires '.' in d
    ensures |r| < |d|
  {
    if d[0] == '.' then d[1..] else AfterDot(d[1..])
  }

  /** The name, then each parent, longest first. */
  function Suffixes(d: string): (r: seq<string>)
    ensures |r| > 0 && r[0] == d
    decreases |d|
  {
    if '.' in d then [d] + Suffixes(AfterDot(d)) else [d]
  }

  lemma {:induction false} AfterDotOfPrefix(x: string, d: string)
    ensures '.' in x + "." + d
    ensures AfterDot(x + "." + d) == if '.' in x then AfterDot(x) + "." + d else d
  {
    var n := x + "." + d;
    assert n[|x|] == '.';
    if x == [] {
      assert n[1..] == d;
    } else if x[0] == '.' {
      assert n[1..] == x[1..] + "." + d;
    } else {
      assert n[1..] == x[1..] + "." + d;
      AfterDotOfPrefix(x[1..], d);
      assert '.' in x <==> '.' in x[1..];
    }
  }

  /** A name under d is walked down to d, and from there exactly as d is. */
  lemma {:induction false} SubdomainWalk(x: string, d: string)
    ensures exists k: nat :: k < |Suffixes(x + "." + d)| && Suffixes(x + "." + d)[k..] == Suffixes(d)
    decreases |x|
  {
    var n := x + "." + d;
    AfterDotOfPrefix(x, d);
    if '.' in x {
      SubdomainWalk(AfterDot(x), d);
      var k: nat :| k < |Suffixes(AfterDot(x) + "." + d)| && Suffixes(AfterDot(x) + "." + d)[k..] == Suffixes(d);
      assert Suffixes(n)[k + 1..] == Suffixes(AfterDot(n))[k..];
    } else {
      assert Suffixes(n)[1..] == Suffixes(d);
    }
  }

  /** d is s itself or lies beneath it, at a label boundary. */
  predicate IsSubdomainOf(d: string, s: string) {
    d == s || (|d| > |s| && d[|d| - |s|..] == s && d[|d| - |s| - 1] == '.')
  }

  /** The walk visits exactly the names d is a subdomain of. */
  lemma {:induction false} WalkVisitsAncestors(d: string, s: string)
    ensures s in Suffixes(d) <==> IsSubdomainOf(d, s)
    decreases |d|
  {
    if d == s {
    } else if IsSubdomainOf(d, s) {
      var x := d[..|d| - |s| - 1];
      assert d == x + "." + s;
      SubdomainWalk(x, s);
      var k: nat :| k < |Suffixes(d)| && Suffixes(d)[k..] == Suffixes(s);
      assert Suffixes(d)[k] == Suffixes(d)[k..][0] == s;
    } else if s in Suffixes(d) {
      assert '.' in d && s in Suffixes(AfterDot(d));
      WalkVisitsAncestors(AfterDot(d), s);
      AfterDotIsTail(d);
    }
  }

  lemma {:induction false} AfterDotIsTail(d: string)
    requires '.' in d
    ensures AfterDot(d) == d[|d| - |AfterDot(d)|..]
    ensures d[|d| - |AfterDot(d)| - 1] == '.'
  {
    if d[0] != '.' { AfterDotIsTail(d[1..]); }
  }
}
