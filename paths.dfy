/**
 * The path helpers of Ruby's core library that the configuration and the
 * deployment routines rely on: `File.join`, `File.dirname`,
 * `String#split('/')` and `Array#join('/')`, for Unix separators.
 */
module Paths {

  predicate StartsWithSep(s: string) {
    |s| > 0 && s[0] == '/'
  }

  predicate EndsWithSep(s: string) {
    |s| > 0 && s[|s| - 1] == '/'
  }

  /** `s` without its trailing run of separators. */
  function StripTrailingSeps(s: string): (r: string)
    ensures r <= s && !EndsWithSep(r)
    ensures forall i :: |r| <= i < |s| ==> s[i] == '/'
    decreases |s|
  {
    if EndsWithSep(s) then StripTrailingSeps(s[..|s| - 1]) else s
  }

  /**
   * One step of `File.join`: when `part` starts with a separator the trailing
   * separators of `acc` are dropped; otherwise one separator is added unless
   * `acc` already ends with one. The part itself is kept whole, so the
   * boundary carries separators from one side only.
   */
  function JoinStep(acc: string, part: string): (r: string)
    ensures |part| <= |r| && r[|r| - |part|..] == part
    ensures r[..|r| - |part|] <= acc + "/"
    ensures StartsWithSep(part) ==> !EndsWithSep(r[..|r| - |part|])
    ensures !StartsWithSep(part) ==> EndsWithSep(r[..|r| - |part|])
  {
    var r := if StartsWithSep(part) then StripTrailingSeps(acc) + part
             else if EndsWithSep(acc) then acc + part
             else acc + "/" + part;
    assert r[..|r| - |part|] == if StartsWithSep(part) then StripTrailingSeps(acc)
                                else if EndsWithSep(acc) then acc else acc + "/";
    r
  }

  /** `File.join(parts...)`: the steps applied from left to right. */
  function Join(parts: seq<string>): (r: string)
    ensures |parts| > 0 ==> |parts[|parts| - 1]| <= |r| && r[|r| - |parts[|parts| - 1]|..] == parts[|parts| - 1]
    decreases |parts|
  {
    if |parts| == 0 then ""
    else if |parts| == 1 then parts[0]
    else JoinStep(Join(parts[..|parts| - 1]), parts[|parts| - 1])
  }

  /** Joining one more part is one more `File.join` step. */
  lemma JoinSnoc(parts: seq<string>, part: string)
    requires |parts| > 0
    ensures Join(parts + [part]) == JoinStep(Join(parts), part)
  {
    SnocParts(parts, part);
  }

  lemma SnocParts(parts: seq<string>, part: string)
    ensures var all := parts + [part];
            |all| == |parts| + 1 && all[|all| - 1] == part && all[..|all| - 1] == parts
  {
  }

  lemma JoinPlainParts(a: string, b: string)
    requires !EndsWithSep(a) && !StartsWithSep(b)
    ensures Join([a, b]) == a + "/" + b
  {
    assert [a, b][..1] == [a];
  }

  lemma JoinIntoDir(a: string, b: string)
    requires EndsWithSep(a) && !StartsWithSep(b)
    ensures Join([a, b]) == a + b
  {
    assert [a, b][..1] == [a];
  }

  lemma JoinAbsolutePart(a: string, b: string)
    requires StartsWithSep(b)
    ensures Join([a, b]) == StripTrailingSeps(a) + b
  {
    assert [a, b][..1] == [a];
  }

  /** Joining one directory with two names that start alike gives the same path only for the same name. */
  lemma JoinInjective(dir: string, x: string, y: string)
    requires StartsWithSep(x) == StartsWithSep(y)
    requires Join([dir, x]) == Join([dir, y])
    ensures x == y
  {
    assert [dir, x][..1] == [dir] && [dir, y][..1] == [dir];
    var head := if StartsWithSep(x) then StripTrailingSeps(dir) else if EndsWithSep(dir) then dir else dir + "/";
    assert JoinStep(dir, x) == head + x;
    assert JoinStep(dir, y) == head + y;
    assert x == (head + x)[|head|..];
    assert y == (head + y)[|head|..];
  }

  lemma JoinThreeParts(a: string, b: string, c: string)
    requires !EndsWithSep(a) && !StartsWithSep(b) && b != "" && !EndsWithSep(b) && !StartsWithSep(c)
    ensures Join([a, b, c]) == a + "/" + b + "/" + c
  {
    assert [a, b, c][..2] == [a, b];
    JoinPlainParts(a, b);
    assert EndsWithSep(a + "/" + b) == EndsWithSep(b);
  }

  /** Index of the first separator in `s`. */
  function FirstSep(s: string): (i: nat)
    requires '/' in s
    ensures i < |s| && s[i] == '/'
    ensures forall k :: 0 <= k < i ==> s[k] != '/'
  {
    if s[0] == '/' then 0
    else FirstSep(s[1..]) + 1
  }

  /** Index of the last separator in `s`. */
  function LastSep(s: string): (i: nat)
    requires '/' in s
    ensures i < |s| && s[i] == '/'
    ensures forall k :: i < k < |s| ==> s[k] != '/'
  {
    if s[|s| - 1] == '/' then |s| - 1
    else
      assert '/' in s[..|s| - 1] by {
        var k :| 0 <= k < |s| && s[k] == '/';
        assert s[..|s| - 1][k] == '/';
      }
      LastSep(s[..|s| - 1])
  }

  /** Every '/'-separated field of `s`, empty fields included. */
  function Fields(s: string): (r: seq<string>)
    ensures |r| >= 1
    ensures forall i :: 0 <= i < |r| ==> '/' !in r[i]
    decreases |s|
  {
    if '/' !in s then [s]
    else
      var i := FirstSep(s);
      [s[..i]] + Fields(s[i + 1..])
  }

  /** The first separator of `s` is the one at `j` when none comes before it. */
  lemma FirstSepAt(s: string, j: nat)
    requires j < |s| && s[j] == '/'
    requires forall k :: 0 <= k < j ==> s[k] != '/'
    ensures FirstSep(s) == j
  {
  }

  /** Splitting `x + "/" + y` adds `y` as one more field. */
  lemma {:induction false} FieldsSnoc(x: string, y: string)
    requires '/' !in y
    ensures Fields(x + "/" + y) == Fields(x) + [y]
    decreases |x|
  {
    var s := x + "/" + y;
    assert forall k :: 0 <= k < |x| ==> s[k] == x[k];
    if '/' in x {
      var j := FirstSep(x);
      FirstSepAt(s, j);
      assert s[..j] == x[..j];
      assert s[j + 1..] == x[j + 1..] + "/" + y;
      FieldsSnoc(x[j + 1..], y);
      assert Fields(s) == [x[..j]] + (Fields(x[j + 1..]) + [y]);
    } else {
      FirstSepAt(s, |x|);
      assert s[..|x|] == x;
      assert s[|x| + 1..] == y;
    }
  }

  /** `Array#join('/')`. */
  function Unfields(parts: seq<string>): string
    decreases |parts|
  {
    if |parts| == 0 then ""
    else if |parts| == 1 then parts[0]
    else parts[0] + "/" + Unfields(parts[1..])
  }

  /** Joining the fields of a string gives the string back. */
  lemma {:induction false} UnfieldsFields(s: string)
    ensures Unfields(Fields(s)) == s
    decreases |s|
  {
    if '/' in s {
      var i := FirstSep(s);
      var fields := Fields(s[i + 1..]);
      assert Fields(s) == [s[..i]] + fields;
      assert ([s[..i]] + fields)[1..] == fields;
      UnfieldsFields(s[i + 1..]);
      assert Unfields(Fields(s)) == s[..i] + "/" + Unfields(fields);
      assert s == s[..i] + "/" + s[i + 1..];
    }
  }

  /** Joining the first `n` fields of `s`, when more follow, gives a prefix of `s` that a separator ends. */
  lemma {:induction false} UnfieldsPrefix(s: string, n: nat)
    requires 0 < n < |Fields(s)|
    ensures var u := Unfields(Fields(s)[..n]);
            |u| < |s| && s[..|u|] == u && s[|u|] == '/'
    decreases |s|
  {
    var i := FirstSep(s);
    var t := s[i + 1..];
    var fields := Fields(t);
    assert Fields(s) == [s[..i]] + fields;
    assert s == s[..i] + "/" + t;
    if n == 1 {
      assert Fields(s)[..n] == [s[..i]];
    } else {
      var front := fields[..n - 1];
      assert Fields(s)[..n] == [s[..i]] + front;
      assert ([s[..i]] + front)[1..] == front;
      UnfieldsPrefix(t, n - 1);
      assert Unfields(Fields(s)[..n]) == s[..i] + "/" + Unfields(front);
      PrefixAfterSep(s[..i], t, Unfields(front));
    }
  }

  /** A prefix of `t` that a separator ends stays one behind `a + "/"`. */
  lemma PrefixAfterSep(a: string, t: string, w: string)
    requires |w| < |t| && t[..|w|] == w && t[|w|] == '/'
    ensures var u, s := a + "/" + w, a + "/" + t;
            |u| < |s| && s[..|u|] == u && s[|u|] == '/'
  {
    var u, s := a + "/" + w, a + "/" + t;
    assert s[..|u|] == a + "/" + t[..|w|];
    assert s[|u|] == t[|w|];
  }

  /** Splitting a join of separator-free parts gives the parts back. */
  lemma {:induction false} FieldsUnfields(parts: seq<string>)
    requires |parts| >= 1
    requires forall i :: 0 <= i < |parts| ==> '/' !in parts[i]
    ensures Fields(Unfields(parts)) == parts
    decreases |parts|
  {
    if |parts| > 1 {
      var head, rest := parts[0], Unfields(parts[1..]);
      var s := head + "/" + rest;
      assert Unfields(parts) == s;
      forall k | 0 <= k < |head|
        ensures s[k] != '/'
      {
        assert s[k] == head[k];
      }
      FirstSepAt(s, |head|);
      assert s[..|head|] == head;
      assert s[|head| + 1..] == rest;
      FieldsUnfields(parts[1..]);
      assert Fields(s) == [head] + parts[1..];
      assert parts == [head] + parts[1..];
    }
  }

  lemma {:induction false} UnfieldsSnoc(parts: seq<string>, last: string)
    requires |parts| >= 1
    ensures Unfields(parts + [last]) == Unfields(parts) + "/" + last
    decreases |parts|
  {
    if |parts| > 1 {
      assert (parts + [last])[1..] == parts[1..] + [last];
      UnfieldsSnoc(parts[1..], last);
    }
  }

  /** Ruby's `String#split('/')`: the fields, with trailing empty fields dropped. */
  function Split(s: string): (r: seq<string>)
    ensures |r| <= |Fields(s)| && r == Fields(s)[..|r|]
    ensures |r| > 0 ==> r[|r| - 1] != ""
    ensures forall i :: |r| <= i < |Fields(s)| ==> Fields(s)[i] == ""
  {
    DropTrailingEmpty(Fields(s))
  }

  function DropTrailingEmpty(fs: seq<string>): (r: seq<string>)
    ensures |r| <= |fs| && r == fs[..|r|]
    ensures |r| > 0 ==> r[|r| - 1] != ""
    ensures forall i :: |r| <= i < |fs| ==> fs[i] == ""
    decreases |fs|
  {
    if |fs| > 0 && fs[|fs| - 1] == "" then DropTrailingEmpty(fs[..|fs| - 1]) else fs
  }

  /** `path.split('/').last`, where a `nil` last field reads as "" once interpolated. */
  function LastComponent(path: string): (r: string)
    ensures '/' !in r
    ensures r != "" ==> |Split(path)| > 0 && r == Split(path)[|Split(path)| - 1]
  {
    var parts := Split(path);
    if |parts| == 0 then "" else parts[|parts| - 1]
  }

  /** A name without separators is its own last component. */
  lemma LastComponentOfPlainName(name: string)
    requires name != "" && '/' !in name
    ensures LastComponent(name) == name
  {
    assert Fields(name) == [name];
    assert Split(name) == [name];
  }

  /** A path that starts with two separators. */
  predicate DoubleRooted(s: string) {
    |s| > 1 && s[0] == '/' && s[1] == '/'
  }

  /** `s` with its leading run of separators reduced to one. */
  function CollapseLeadingSeps(s: string): (r: string)
    ensures !DoubleRooted(r)
    ensures |r| <= |s| && r == s[|s| - |r|..]
    ensures |s| > 0 ==> |r| > 0
    decreases |s|
  {
    if DoubleRooted(s) then CollapseLeadingSeps(s[1..]) else s
  }

  /**
   * Ruby's `File.dirname` on Unix paths: the part before the last separator
   * that is followed by a name, without the separators before it; a path
   * that starts with several separators keeps only one of them.
   */
  function Dirname(p: string): (r: string)
    ensures r != ""
    ensures !DoubleRooted(r)
    ensures r == "/" || !EndsWithSep(r)
  {
    var q := StripTrailingSeps(p);
    if q == "" then (if p == "" then "." else "/")
    else if '/' !in q then "."
    else
      var h := StripTrailingSeps(q[..LastSep(q)]);
      if h == "" then "/" else CollapsedDir(h)
  }

  /** A directory without trailing separators keeps none once its leading ones are collapsed. */
  function CollapsedDir(h: string): (r: string)
    requires h != "" && !EndsWithSep(h)
    ensures r == CollapseLeadingSeps(h)
    ensures r != "" && !DoubleRooted(r) && !EndsWithSep(r)
  {
    var r := CollapseLeadingSeps(h);
    assert r[|r| - 1] == h[|h| - |r|..][|r| - 1] == h[|h| - 1];
    r
  }

  /** Several leading separators collapse into one: the directory of `//a/b` is `/a`. */
  lemma DirnameCollapsesLeadingSeps()
    ensures Dirname("//a/b") == "/a"
  {
    var p := "//a/b";
    assert StripTrailingSeps(p) == p;
    assert LastSep(p) == 3;
    assert p[..3] == "//a";
    assert StripTrailingSeps("//a") == "//a";
    assert CollapseLeadingSeps("//a") == CollapseLeadingSeps("/a") == "/a";
  }

  /** The directory of `head + "/" + leaf` is `head`, with its leading separators collapsed, when neither end is a separator. */
  lemma DirnameOfChild(head: string, leaf: string)
    requires head != "" && !EndsWithSep(head)
    requires leaf != "" && '/' !in leaf
    ensures Dirname(head + "/" + leaf) == CollapseLeadingSeps(head)
  {
    var p := head + "/" + leaf;
    ChildSeparator(head, leaf);
    assert StripTrailingSeps(head) == head;
    assert Dirname(p) == CollapsedDir(head);
  }

  /** In `head + "/" + leaf` the last separator is the one after `head`, and nothing trails it. */
  lemma ChildSeparator(head: string, leaf: string)
    requires leaf != "" && '/' !in leaf
    ensures var p := head + "/" + leaf;
            && StripTrailingSeps(p) == p && '/' in p
            && LastSep(p) == |head| && p[..|head|] == head
  {
    var p := head + "/" + leaf;
    assert !EndsWithSep(p);
    assert p[|head|] == '/';
    var i := LastSep(p);
    assert forall k :: |head| < k < |p| ==> p[k] == leaf[k - |head| - 1];
    assert p[..i] == head;
  }
}
