/** Where a name in an archive leads when it is resolved below a directory. */
module ArchiveNames {
  import opened Archive

  /** The parts of a name between its slashes; there is always one. */
  function Split(s: string): (parts: seq<string>)
    ensures |parts| > 0
  {
    if s == "" then [""]
    else
      var rest := Split(s[1..]);
      if s[0] == '/' then [""] + rest else [[s[0]] + rest[0]] + rest[1..]
  }

  function Join(parts: seq<string>): string {
    if parts == [] then "" else if |parts| == 1 then parts[0] else parts[0] + ['/'] + Join(parts[1..])
  }

  /** A step in a directory tree: nothing for an empty part and for a dot, up for two, down otherwise. */
  function Walk(at: seq<string>, part: string): seq<string> {
    if part == "" || part == "." then at
    else if part == ".." then if at == [] then [] else at[..|at| - 1]
    else at + [part]
  }

  /** The directories that resolving the first n parts comes to. */
  function Resolve(at: seq<string>, parts: seq<string>, n: nat): seq<string>
    requires n <= |parts|
  {
    if n == 0 then at else Walk(Resolve(at, parts, n - 1), parts[n - 1])
  }

  predicate Plain(part: string) {
    part != "" && part != "." && part != ".."
  }

  ghost predicate AllPlain(parts: seq<string>) {
    forall k :: 0 <= k < |parts| ==> Plain(parts[k])
  }

  lemma {:induction false} JoinSplit(s: string)
    ensures Join(Split(s)) == s
  {
    if s != "" {
      var rest := Split(s[1..]);
      JoinSplit(s[1..]);
      assert s == [s[0]] + s[1..];
      if s[0] == '/' {
        assert Split(s)[1..] == rest;
      } else {
        assert Split(s)[1..] == rest[1..];
      }
    }
  }

  lemma {:induction false} FirstPart(s: string)
    ensures Split(s)[0] <= s && Ends(s, |Split(s)[0]|) && '/' !in Split(s)[0]
  {
    if s != "" && s[0] != '/' {
      FirstPart(s[1..]);
      assert s == [s[0]] + s[1..];
    }
  }

  lemma FirstIsPlain(s: string)
    requires s != "" && PartAt(s, 0)
    ensures Plain(Split(s)[0])
  {
    FirstPart(s);
  }

  /** Every part but the first is plain if it looks so where it begins. */
  lemma {:induction false} LaterArePlain(s: string, k: nat)
    requires s != "" ==> s[|s| - 1] != '/'
    requires forall i :: 0 < i < |s| && Begins(s, i) ==> PartAt(s, i)
    requires 0 < k < |Split(s)|
    ensures Plain(Split(s)[k])
    decreases s
  {
    var t := s[1..];
    forall i | 0 < i < |t| && Begins(t, i) ensures PartAt(t, i) { Shifted(s, i); }
    if s[0] == '/' && k == 1 {
      Shifted(s, 0);
      FirstIsPlain(t);
    } else {
      LaterArePlain(t, if s[0] == '/' then k - 1 else k);
    }
  }

  lemma Shifted(s: string, i: nat)
    requires i + 1 < |s| && Begins(s, i + 1) && PartAt(s, i + 1)
    ensures PartAt(s[1..], i)
  {
  }

  lemma PartsArePlain(name: string)
    requires ValidName(name)
    ensures AllPlain(Split(name))
  {
    forall k | 0 <= k < |Split(name)| ensures Plain(Split(name)[k]) {
      if k == 0 { FirstIsPlain(name); } else { LaterArePlain(name, k); }
    }
  }

  lemma PlainFits(s: string)
    requires s != "" && Plain(Split(s)[0])
    ensures PartAt(s, 0)
  {
    var first := Split(s)[0];
    FirstPart(s);
    assert s[0] == first[0];
    if |first| > 1 { assert s[1] == first[1]; }
    if |first| > 2 { assert s[2] == first[2]; }
  }

  lemma {:induction false} LaterFit(s: string, i: nat)
    requires 0 < i < |s| && Begins(s, i) && forall k :: 0 < k < |Split(s)| ==> Plain(Split(s)[k])
    ensures PartAt(s, i)
    decreases s
  {
    var t := s[1..];
    if s[0] == '/' {
      assert forall k :: 0 <= k < |Split(t)| ==> Split(t)[k] == Split(s)[k + 1];
    } else {
      assert forall k :: 0 < k < |Split(t)| ==> Split(t)[k] == Split(s)[k];
    }
    if i == 1 { PlainFits(t); } else { LaterFit(t, i - 1); }
  }

  lemma LastSlash(s: string)
    requires s != "" && s[|s| - 1] == '/'
    ensures |Split(s)| > 1 && Split(s)[|Split(s)| - 1] == ""
    decreases s
  {
    if |s| > 1 { LastSlash(s[1..]); } else { assert s[1..] == ""; }
  }

  lemma PlainEnds(name: string)
    requires AllPlain(Split(name))
    ensures name != "" && name[|name| - 1] != '/'
  {
    assert Plain(Split(name)[0]);
    if name != "" && name[|name| - 1] == '/' { LastSlash(name); }
  }

  lemma PlainAt(name: string, i: nat)
    requires AllPlain(Split(name)) && i < |name| && Begins(name, i)
    ensures PartAt(name, i)
  {
    if i == 0 { PlainFits(name); } else { LaterFit(name, i); }
  }

  lemma PlainPartsFit(name: string)
    requires AllPlain(Split(name))
    ensures name != "" && name[|name| - 1] != '/' && Parted(name)
  {
    PlainEnds(name);
    forall i | 0 <= i < |name| && Begins(name, i) ensures PartAt(name, i) { PlainAt(name, i); }
  }

  /** The valid names are exactly the short printable ones whose parts are all plain. */
  lemma ValidExactlyIfPlain(name: string)
    ensures ValidName(name) <==> |name| <= 240 && Printable(name) && AllPlain(Split(name))
  {
    if ValidName(name) { PartsArePlain(name); }
    if AllPlain(Split(name)) { PlainPartsFit(name); }
  }

  lemma {:induction false} PlainGoDown(at: seq<string>, parts: seq<string>, n: nat)
    requires n <= |parts| && AllPlain(parts)
    ensures Resolve(at, parts, n) == at + parts[..n]
  {
    if n > 0 {
      PlainGoDown(at, parts, n - 1);
      assert parts[..n] == parts[..n - 1] + [parts[n - 1]];
    } else {
      assert at + parts[..0] == at;
    }
  }

  /** On the whole way that a valid name leads from a directory it never leaves it, and it ends below it. */
  lemma ValidNamesStayBelow(dir: seq<string>, name: string)
    requires ValidName(name)
    ensures forall n :: 0 <= n <= |Split(name)| ==> dir <= Resolve(dir, Split(name), n)
    ensures Resolve(dir, Split(name), |Split(name)|) == dir + Split(name)
  {
    PartsArePlain(name);
    forall n | 0 <= n <= |Split(name)| ensures dir <= Resolve(dir, Split(name), n) {
      PlainGoDown(dir, Split(name), n);
    }
    PlainGoDown(dir, Split(name), |Split(name)|);
    assert Split(name)[..|Split(name)|] == Split(name);
  }

  function Place(dir: seq<string>, name: string): seq<string> {
    Resolve(dir, Split(name), |Split(name)|)
  }

  /** Different valid names lead to different places. */
  lemma ValidNamesAreApart(dir: seq<string>, a: string, b: string)
    requires ValidName(a) && ValidName(b)
    ensures Place(dir, a) == Place(dir, b) <==> a == b
  {
    ValidNamesStayBelow(dir, a);
    ValidNamesStayBelow(dir, b);
    JoinSplit(a);
    JoinSplit(b);
    assert (dir + Split(a))[|dir|..] == Split(a) && (dir + Split(b))[|dir|..] == Split(b);
  }

  lemma {:induction false} SplitAtSlash(a: string, b: string)
    ensures Split(a + ['/'] + b) == Split(a) + Split(b)
  {
    var all := a + ['/'] + b;
    if a == "" {
      assert all[1..] == b;
    } else {
      assert all[1..] == a[1..] + ['/'] + b;
      SplitAtSlash(a[1..], b);
    }
  }

  lemma {:induction false} JoinBoth(a: seq<string>, b: seq<string>)
    requires a != [] && b != []
    ensures Join(a + b) == Join(a) + ['/'] + Join(b)
  {
    if |a| == 1 {
      assert (a + b)[1..] == b;
    } else {
      assert (a + b)[1..] == a[1..] + b;
      JoinBoth(a[1..], b);
    }
  }

  lemma BeneathGoesOn(a: string, b: string)
    requires Beneath(a, b)
    ensures Split(b) < Split(a)
  {
    var rest := a[|b| + 1..];
    assert a == b + ['/'] + rest;
    SplitAtSlash(b, rest);
  }

  lemma GoesOnBeneath(a: string, b: string)
    requires Split(b) < Split(a)
    ensures Beneath(a, b)
  {
    var rest := Split(a)[|Split(b)|..];
    assert Split(a) == Split(b) + rest;
    JoinBoth(Split(b), rest);
    JoinSplit(a);
    JoinSplit(b);
    assert a == b + ['/'] + Join(rest);
  }

  lemma BelowOneDirectory(dir: seq<string>, a: seq<string>, b: seq<string>)
    ensures dir + b < dir + a <==> b < a
  {
    if dir + b < dir + a {
      assert (dir + a)[..|dir + b|] == dir + b;
      assert a[..|b|] == (dir + a)[|dir|..|dir| + |b|] == (dir + b)[|dir|..] == b;
    }
  }

  /** One name lies beneath another exactly if its place lies in a directory at the other's place. */
  lemma BeneathIsBelow(dir: seq<string>, a: string, b: string)
    requires ValidName(a) && ValidName(b)
    ensures Beneath(a, b) <==> Place(dir, b) < Place(dir, a)
  {
    ValidNamesStayBelow(dir, a);
    ValidNamesStayBelow(dir, b);
    BelowOneDirectory(dir, Split(a), Split(b));
    if Beneath(a, b) { BeneathGoesOn(a, b); }
    if Split(b) < Split(a) { GoesOnBeneath(a, b); }
  }
}
