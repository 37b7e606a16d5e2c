/** The parts of Go's `strings` and `path/filepath` packages that the core
    uses: TrimSpace, ToLower, Split, Join, Contains and Ext/TrimSuffix. */
module Text {

  /** unicode.IsSpace: the ASCII white space characters plus U+0085, U+00A0
      and the Unicode space separators. */
  predicate IsSpace(c: char) {
    c == ' ' || c == '\t' || c == '\n' || c == '\r' || c == '\U{000B}' || c == '\U{000C}'
    || c == '\U{0085}' || c == '\U{00A0}' || c == '\U{1680}'
    || ('\U{2000}' <= c <= '\U{200A}')
    || c == '\U{2028}' || c == '\U{2029}' || c == '\U{202F}' || c == '\U{205F}' || c == '\U{3000}'
  }

  predicate AllSpace(s: string) {
    forall k :: 0 <= k < |s| ==> IsSpace(s[k])
  }

  /** Drops the leading white space (strings.TrimLeftFunc with unicode.IsSpace). */
  function TrimLeft(s: string): string
    decreases |s|
  {
    if |s| > 0 && IsSpace(s[0]) then TrimLeft(s[1..]) else s
  }

  /** Drops the trailing white space. */
  function TrimRight(s: string): string
    decreases |s|
  {
    if |s| > 0 && IsSpace(s[|s| - 1]) then TrimRight(s[..|s| - 1]) else s
  }

  /** TrimLeft keeps a suffix of `s`, what it drops is all white space, and
      what it keeps does not start with white space. */
  lemma {:induction false} TrimLeftFacts(s: string)
    ensures var r := TrimLeft(s);
            |r| <= |s| && r == s[|s| - |r|..] && AllSpace(s[..|s| - |r|])
            && (r != [] ==> !IsSpace(r[0]))
    decreases |s|
  {
    if |s| > 0 && IsSpace(s[0]) {
      TrimLeftFacts(s[1..]);
      var r := TrimLeft(s);
      assert s[..|s| - |r|] == [s[0]] + s[1..][..|s| - 1 - |r|];
    }
  }

  /** TrimRight keeps a prefix of `s`, what it drops is all white space, and
      what it keeps does not end with white space. */
  lemma {:induction false} TrimRightFacts(s: string)
    ensures var r := TrimRight(s);
            |r| <= |s| && r == s[..|r|] && AllSpace(s[|r|..])
            && (r != [] ==> !IsSpace(r[|r| - 1]))
    decreases |s|
  {
    if |s| > 0 && IsSpace(s[|s| - 1]) {
      TrimRightFacts(s[..|s| - 1]);
      var r := TrimRight(s);
      assert s[|r|..] == s[..|s| - 1][|r|..] + [s[|s| - 1]];
    }
  }

  /** strings.TrimSpace. */
  function TrimSpace(s: string): string {
    TrimRight(TrimLeft(s))
  }

  /** The trimmed string is the middle of `s` between two runs of white space. */
  lemma TrimSpaceIsMiddle(s: string)
    ensures |TrimSpace(s)| <= |TrimLeft(s)| <= |s|
    ensures var i := |s| - |TrimLeft(s)|; var j := i + |TrimSpace(s)|; TrimSpace(s) == s[i..j] && AllSpace(s[..i]) && AllSpace(s[j..])
  {
    var l := TrimLeft(s);
    var r := TrimRight(l);
    TrimLeftFacts(s);
    TrimRightFacts(l);
    var i := |s| - |l|;
    var j := i + |r|;
    assert r == s[i..j] by {
      assert l == s[i..] && r == l[..|r|];
    }
    assert AllSpace(s[j..]) by {
      assert s[j..] == l[|r|..];
    }
  }

  /** A string is blank (trims to "") exactly when it is all white space. */
  lemma TrimSpaceBlankIff(s: string)
    ensures TrimSpace(s) == [] <==> AllSpace(s)
  {
    var l := TrimLeft(s);
    TrimLeftFacts(s);
    TrimRightFacts(l);
    if TrimSpace(s) == [] {
      assert l[0..] == l;
      assert s == s[..|s| - |l|] + l;
    }
  }

  /** Trimming twice is trimming once. */
  lemma TrimSpaceIdempotent(s: string)
    ensures TrimSpace(TrimSpace(s)) == TrimSpace(s)
  {
    var t := TrimSpace(s);
    TrimSpaceIsMiddle(s);
    TrimLeftFacts(s);
    TrimRightFacts(TrimLeft(s));
    if t != [] {
      assert TrimLeft(t) == t;
      assert TrimRight(t) == t;
    }
  }

  function LowerChar(c: char): char {
    if 'A' <= c <= 'Z' then (c as int + 32) as char else c
  }

  /** strings.ToLower, on ASCII letters. */
  function ToLower(s: string): (r: string)
    ensures |r| == |s|
    ensures forall k :: 0 <= k < |s| ==> r[k] == LowerChar(s[k])
  {
    seq(|s|, k requires 0 <= k < |s| => LowerChar(s[k]))
  }

  /** strings.Contains. */
  predicate Contains(s: string, sub: string)
    decreases |s|
  {
    |sub| <= |s| && (s[..|sub|] == sub || Contains(s[1..], sub))
  }

  /** Whether sub occurs in s starting at index i. */
  predicate OccursAt(s: string, sub: string, i: int) {
    0 <= i <= |s| - |sub| && s[i..i + |sub|] == sub
  }

  /** Contains means an occurrence at some index, in both directions: a
      string that does not contain sub has it nowhere. */
  lemma {:induction false} ContainsIff(s: string, sub: string)
    ensures Contains(s, sub) <==> exists i :: OccursAt(s, sub, i)
    decreases |s|
  {
    if |sub| <= |s| {
      if s[..|sub|] == sub {
        assert OccursAt(s, sub, 0);
      }
      if |s| > 0 {
        ContainsIff(s[1..], sub);
        if exists i :: OccursAt(s[1..], sub, i) {
          var i :| OccursAt(s[1..], sub, i);
          assert s[i + 1..i + 1 + |sub|] == s[1..][i..i + |sub|];
          assert OccursAt(s, sub, i + 1);
        }
        if exists i :: OccursAt(s, sub, i) {
          var i :| OccursAt(s, sub, i);
          if i > 0 {
            assert s[1..][i - 1..i - 1 + |sub|] == s[i..i + |sub|];
            assert OccursAt(s[1..], sub, i - 1);
          } else {
            assert s[..|sub|] == s[i..i + |sub|];
          }
        }
      }
    }
  }

  /** A string that contains sub is some text, sub, and some more text. */
  lemma ContainsSplit(s: string, sub: string)
    requires Contains(s, sub)
    ensures exists i :: 0 <= i <= |s| - |sub| && s == s[..i] + sub + s[i + |sub|..]
  {
    ContainsIff(s, sub);
    var i :| OccursAt(s, sub, i);
    assert s == s[..i] + s[i..i + |sub|] + s[i + |sub|..];
  }

  /** A string contains every string written inside it. */
  lemma {:induction false} ContainsInfix(before: string, sub: string, after: string)
    ensures Contains(before + sub + after, sub)
    decreases |before|
  {
    var s := before + sub + after;
    if |before| == 0 {
      assert s[..|sub|] == sub;
    } else {
      ContainsInfix(before[1..], sub, after);
      assert s[1..] == before[1..] + sub + after;
    }
  }

  /** strings.Split with a one-character separator. */
  function Split(s: string, sep: char): (parts: seq<string>)
    ensures |parts| >= 1
    decreases |s|
  {
    if |s| == 0 then [""]
    else
      var rest := Split(s[1..], sep);
      if s[0] == sep then [""] + rest else [[s[0]] + rest[0]] + rest[1..]
  }

  /** strings.Join with a one-character separator. */
  function Join(parts: seq<string>, sep: char): string
    decreases |parts|
  {
    if |parts| == 0 then ""
    else if |parts| == 1 then parts[0]
    else parts[0] + [sep] + Join(parts[1..], sep)
  }

  /** No piece of a split contains the separator. */
  lemma {:induction false} SplitPiecesFree(s: string, sep: char)
    ensures forall k :: 0 <= k < |Split(s, sep)| ==> sep !in Split(s, sep)[k]
    decreases |s|
  {
    if |s| > 0 {
      SplitPiecesFree(s[1..], sep);
      var rest := Split(s[1..], sep);
      if s[0] != sep {
        var parts := Split(s, sep);
        forall k | 0 <= k < |parts| ensures sep !in parts[k] {
          if k == 0 {
            assert parts[0] == [s[0]] + rest[0];
          } else {
            assert parts[k] == rest[k];
          }
        }
      }
    }
  }

  /** Joining the pieces of a split with the same separator gives back the string. */
  lemma {:induction false} JoinSplit(s: string, sep: char)
    ensures Join(Split(s, sep), sep) == s
    decreases |s|
  {
    if |s| > 0 {
      JoinSplit(s[1..], sep);
      var rest := Split(s[1..], sep);
      if s[0] == sep {
        assert Split(s, sep)[1..] == rest;
      } else {
        var parts := Split(s, sep);
        assert parts[1..] == rest[1..];
        if |rest| > 1 {
          assert Join(rest, sep) == rest[0] + [sep] + Join(rest[1..], sep);
        }
      }
    }
  }

  /** A string without the separator splits into itself alone. */
  lemma {:induction false} SplitNoSep(a: string, sep: char)
    requires sep !in a
    ensures Split(a, sep) == [a]
    decreases |a|
  {
    if |a| > 0 {
      SplitNoSep(a[1..], sep);
      assert [a[0]] + a[1..] == a;
    }
  }

  /** Splitting at the first separator: the piece before it, then the
      pieces of the rest. */
  lemma {:induction false} SplitCons(a: string, b: string, sep: char)
    requires sep !in a
    ensures Split(a + [sep] + b, sep) == [a] + Split(b, sep)
    decreases |a|
  {
    var s := a + [sep] + b;
    if |a| == 0 {
      assert s[1..] == b;
    } else {
      SplitCons(a[1..], b, sep);
      assert s[1..] == a[1..] + [sep] + b;
      assert [a[0]] + a[1..] == a;
    }
  }

  /** Splitting pieces that hold no separator undoes joining them. */
  lemma {:induction false} SplitJoin(parts: seq<string>, sep: char)
    requires |parts| >= 1
    requires forall k :: 0 <= k < |parts| ==> sep !in parts[k]
    ensures Split(Join(parts, sep), sep) == parts
    decreases |parts|
  {
    if |parts| == 1 {
      SplitNoSep(parts[0], sep);
    } else {
      SplitJoin(parts[1..], sep);
      SplitCons(parts[0], Join(parts[1..], sep), sep);
      assert [parts[0]] + parts[1..] == parts;
    }
  }

  /** The joined string ends with the last piece, after a separator when
      there are several. */
  lemma {:induction false} JoinLast(parts: seq<string>, sep: char)
    requires |parts| >= 1
    ensures Join(parts, sep)
            == (if |parts| == 1 then [] else Join(parts[..|parts| - 1], sep) + [sep]) + parts[|parts| - 1]
    decreases |parts|
  {
    if |parts| > 2 {
      JoinLast(parts[1..], sep);
      assert parts[1..][..|parts| - 2] == parts[..|parts| - 1][1..];
    } else if |parts| == 2 {
      assert parts[..1] == [parts[0]];
    }
  }

  /** Appending to the last piece appends to the joined string. */
  lemma {:induction false} JoinExtendLast(parts: seq<string>, suffix: string, sep: char)
    requires |parts| >= 1
    ensures Join(parts[..|parts| - 1] + [parts[|parts| - 1] + suffix], sep) == Join(parts, sep) + suffix
    decreases |parts|
  {
    var extended := parts[..|parts| - 1] + [parts[|parts| - 1] + suffix];
    if |parts| > 1 {
      JoinExtendLast(parts[1..], suffix, sep);
      assert extended[0] == parts[0];
      assert extended[1..] == parts[1..][..|parts[1..]| - 1] + [parts[1..][|parts[1..]| - 1] + suffix];
    }
  }

  /** filepath.Ext on a slash-separated path: the suffix that starts at the
      last dot of the last path element, or "" when that element has no dot. */
  function Ext(path: string): (e: string)
    ensures |e| <= |path| && e == path[|path| - |e|..]
    ensures e != [] ==> e[0] == '.' && '/' !in e
    decreases |path|
  {
    if |path| == 0 || path[|path| - 1] == '/' then ""
    else if path[|path| - 1] == '.' then "."
    else
      var e := Ext(path[..|path| - 1]);
      if e == [] then [] else e + [path[|path| - 1]]
  }

  /** A dot followed by a dot-free, slash-free tail is the extension. */
  lemma {:induction false} ExtOfDotted(path: string, ext: string)
    requires |ext| >= 1 && ext[0] == '.' && '.' !in ext[1..] && '/' !in ext
    ensures Ext(path + ext) == ext
    decreases |ext|
  {
    var p := path + ext;
    var last := ext[|ext| - 1];
    assert p[|p| - 1] == last;
    if |ext| == 1 {
      assert last == '.';
    } else {
      var shorter := ext[..|ext| - 1];
      assert last == ext[1..][|ext| - 2];
      assert last != '.' && last != '/';
      assert '.' !in shorter[1..] && '/' !in shorter by {
        assert shorter[1..] == ext[1..][..|ext| - 2];
      }
      ExtOfDotted(path, shorter);
      assert p[..|p| - 1] == path + shorter;
      assert shorter + [last] == ext;
    }
  }

  /** A last path element without a dot has no extension. */
  lemma {:induction false} ExtOfPlain(dir: string, name: string)
    requires dir == [] || dir[|dir| - 1] == '/'
    requires '.' !in name && '/' !in name
    ensures Ext(dir + name) == []
    decreases |name|
  {
    var p := dir + name;
    if |name| > 0 {
      ExtOfPlain(dir, name[..|name| - 1]);
      assert p[..|p| - 1] == dir + name[..|name| - 1];
      assert p[|p| - 1] == name[|name| - 1];
    } else {
      assert p == dir;
    }
  }

  /** Whether s ends with suffix (strings.HasSuffix). */
  predicate HasSuffix(s: string, suffix: string) {
    |suffix| <= |s| && s[|s| - |suffix|..] == suffix
  }

  /** strings.TrimSuffix: the suffix, when s ends with it, is removed once;
      what is left is a prefix of s that gives s back when the suffix is
      put back on. */
  function TrimSuffix(s: string, suffix: string): (r: string)
    ensures |r| <= |s| && r == s[..|r|]
    ensures HasSuffix(s, suffix) ==> r + suffix == s
    ensures !HasSuffix(s, suffix) ==> r == s
  {
    if HasSuffix(s, suffix) then s[..|s| - |suffix|] else s
  }

  /** Trimming a suffix undoes appending it. */
  lemma TrimSuffixAppend(r: string, suffix: string)
    ensures TrimSuffix(r + suffix, suffix) == r
  {
    assert HasSuffix(r + suffix, suffix) by {
      assert (r + suffix)[|r|..] == suffix;
    }
  }
}
