/** The pieces of Python's path and string handling that the add-on builds its paths with:
    the Windows flavour of `os.path` (ntpath), `pathlib`'s drive and `str` of a counter. */
module Paths {

  /** ntpath treats both slashes as separators and joins with a backslash. */
  predicate IsSep(c: char) { c == '\\' || c == '/' }

  predicate IsDot(c: char) { c == '.' }

  const Sep: char := '\\'

  /** `str.rfind` for a class of characters: the last index whose character satisfies `f`, or -1. */
  function LastWhere(s: string, f: char -> bool): (i: int)
    ensures -1 <= i < |s|
    ensures i >= 0 ==> f(s[i])
    ensures forall j :: i < j < |s| ==> !f(s[j])
  {
    if s == [] then -1
    else if f(s[|s| - 1]) then |s| - 1
    else LastWhere(s[..|s| - 1], f)
  }

  /** The three properties of `LastWhere` determine it. */
  lemma LastWhereUnique(s: string, f: char -> bool, i: int)
    requires -1 <= i < |s| && (i >= 0 ==> f(s[i]))
    requires forall j :: i < j < |s| ==> !f(s[j])
    ensures LastWhere(s, f) == i
  {
  }

  /** The last match of `a + b` lies in `b` when `b` has one, and is the last match of `a` otherwise. */
  lemma LastWhereAppend(a: string, b: string, f: char -> bool)
    ensures LastWhere(a + b, f) == if LastWhere(b, f) >= 0 then |a| + LastWhere(b, f) else LastWhere(a, f)
  {
    var ia, ib := LastWhere(a, f), LastWhere(b, f);
    if ib >= 0 {
      assert (a + b)[|a| + ib] == b[ib];
      forall j | |a| + ib < j < |a + b| ensures !f((a + b)[j]) {
        assert (a + b)[j] == b[j - |a|];
      }
      LastWhereUnique(a + b, f, |a| + ib);
    } else {
      if ia >= 0 {
        assert (a + b)[ia] == a[ia];
      }
      forall j | ia < j < |a + b| ensures !f((a + b)[j]) {
        if j < |a| {
          assert (a + b)[j] == a[j];
        } else {
          assert (a + b)[j] == b[j - |a|];
        }
      }
      LastWhereUnique(a + b, f, ia);
    }
  }

  predicate HasNonDot(s: string) {
    exists i :: 0 <= i < |s| && !IsDot(s[i])
  }

  /** A well-formed extension: empty, or a dot followed by characters that are neither dots
      nor separators. */
  predicate IsExtension(e: string) {
    e == [] || (IsDot(e[0]) && forall i :: 0 <= i < |e| ==> !IsSep(e[i]) && (i > 0 ==> !IsDot(e[i])))
  }

  /** `os.path.splitext(p)` on Windows: the extension starts at the last dot after the last
      separator, provided the final component has some character other than a dot before it;
      otherwise there is no extension. */
  function SplitExt(p: string): (r: (string, string))
    ensures r.0 + r.1 == p
    ensures IsExtension(r.1)
  {
    var sepIndex := LastWhere(p, IsSep);
    var dotIndex := LastWhere(p, IsDot);
    if dotIndex > sepIndex && HasNonDot(p[sepIndex + 1..dotIndex]) then
      assert p[..dotIndex] + p[dotIndex..] == p;
      (p[..dotIndex], p[dotIndex..])
    else
      (p, "")
  }

  function Stem(p: string): string { SplitExt(p).0 }

  function Ext(p: string): string { SplitExt(p).1 }

  predicate NoDotNoSep(tag: string) {
    forall i :: 0 <= i < |tag| ==> !IsDot(tag[i]) && !IsSep(tag[i])
  }

  /** Inserting text free of dots and separators between the stem and the extension leaves the
      extension where it was: `splitext` of the longer path gives back the longer stem and the
      same extension. */
  lemma SplitExtInsert(p: string, tag: string)
    requires NoDotNoSep(tag)
    ensures SplitExt(Stem(p) + tag + Ext(p)) == (Stem(p) + tag, Ext(p))
  {
    if tag == [] {
      assert Stem(p) + tag + Ext(p) == p;
    } else if Ext(p) != [] {
      SplitExtInsertWithExt(p, tag);
    } else {
      SplitExtInsertNoExt(p, tag);
    }
  }

  lemma SplitExtInsertWithExt(p: string, tag: string)
    requires NoDotNoSep(tag) && tag != [] && Ext(p) != []
    ensures SplitExt(Stem(p) + tag + Ext(p)) == (Stem(p) + tag, Ext(p))
  {
    var root, ext := Stem(p), Ext(p);
    var stem := root + tag;
    var s := LastWhere(stem, IsSep);
    assert s == LastWhere(root, IsSep) by {
      LastWhereUnique(tag, IsSep, -1);
      LastWhereAppend(root, tag, IsSep);
    }
    assert HasNonDot(stem[s + 1..]) by {
      assert stem[s + 1..][|stem| - 1 - (s + 1)] == tag[|tag| - 1];
    }
    SplitExtAppendExt(stem, ext);
  }

  /** `splitext` cuts at the last dot when the guard holds. */
  lemma SplitExtAt(q: string, s: int, dq: int)
    requires LastWhere(q, IsSep) == s && LastWhere(q, IsDot) == dq
    requires dq > s && HasNonDot(q[s + 1..dq])
    ensures SplitExt(q) == (q[..dq], q[dq..])
  {
  }

  /** `splitext` does not cut when the guard fails. */
  lemma SplitExtNone(q: string, s: int, dq: int)
    requires LastWhere(q, IsSep) == s && LastWhere(q, IsDot) == dq
    requires !(dq > s && HasNonDot(q[s + 1..dq]))
    ensures SplitExt(q) == (q, "")
  {
  }

  lemma SplitExtInsertNoExt(p: string, tag: string)
    requires NoDotNoSep(tag) && Ext(p) == []
    ensures SplitExt(Stem(p) + tag + Ext(p)) == (Stem(p) + tag, Ext(p))
  {
    var s, d := LastWhere(p, IsSep), LastWhere(p, IsDot);
    var q := p + tag;
    assert Stem(p) + tag + Ext(p) == q;
    assert LastWhere(q, IsDot) == d by {
      LastWhereUnique(tag, IsDot, -1);
      LastWhereAppend(p, tag, IsDot);
    }
    assert LastWhere(q, IsSep) == s by {
      LastWhereUnique(tag, IsSep, -1);
      LastWhereAppend(p, tag, IsSep);
    }
    assert !(d > s && HasNonDot(q[s + 1..d])) by {
      if d > s {
        assert q[s + 1..d] == p[s + 1..d];
      }
    }
    SplitExtNone(q, s, d);
  }

  /** Appending a well-formed, non-empty extension to a path whose final component has a
      character other than a dot makes that extension the one `splitext` finds. */
  lemma SplitExtAppendExt(stem: string, ext: string)
    requires ext != [] && IsExtension(ext)
    requires HasNonDot(stem[LastWhere(stem, IsSep) + 1..])
    ensures SplitExt(stem + ext) == (stem, ext)
  {
    var q := stem + ext;
    var s := LastWhere(stem, IsSep);
    assert LastWhere(q, IsDot) == |stem| by {
      LastWhereUnique(ext, IsDot, 0);
      LastWhereAppend(stem, ext, IsDot);
    }
    assert LastWhere(q, IsSep) == s by {
      LastWhereUnique(ext, IsSep, -1);
      LastWhereAppend(stem, ext, IsSep);
    }
    assert q[s + 1..|stem|] == stem[s + 1..];
    SplitExtAt(q, s, |stem|);
    assert q[..|stem|] == stem && q[|stem|..] == ext;
  }

  /** `os.path.join(a, b)` for a relative component `b` without a drive: a backslash is put
      between them unless the part of `a` after its drive is empty or already ends in a
      separator (so `join("C:", b)` is `"C:" + b`, relative to that drive's current directory). */
  function Join(a: string, b: string): (r: string)
    ensures |r| == |a| + |b| + (if NeedsSep(a) then 1 else 0)
    ensures r[..|a|] == a && r[|r| - |b|..] == b
    ensures NeedsSep(a) ==> r[|a|] == Sep
  {
    if NeedsSep(a) then a + [Sep] + b else a + b
  }

  /** A separator goes after `a` when what follows its `ntpath` drive is non-empty and does not
      already end in one. */
  predicate NeedsSep(a: string) {
    |NtDrive(a)| < |a| && !IsSep(a[|a| - 1])
  }

  /** The drive `ntpath.splitdrive` takes off a path that is not UNC: any character followed by
      a colon (unlike `pathlib`, which wants a letter), or nothing. */
  function NtDrive(p: string): (r: string)
    ensures r != [] <==> |p| >= 2 && p[1] == ':'
    ensures r != [] ==> r == p[..2]
  {
    if |p| >= 2 && p[1] == ':' then p[..2] else ""
  }

  /** Joining onto a bare drive, letter or not, adds no separator: `join("1:", "x")` is `"1:x"`. */
  lemma JoinBareDrive(c: char, b: string)
    ensures Join([c, ':'], b) == [c, ':'] + b
  {
    assert NtDrive([c, ':']) == [c, ':'];
  }

  predicate IsAsciiLetter(c: char) { ('a' <= c <= 'z') || ('A' <= c <= 'Z') }

  /** `pathlib.PureWindowsPath(p).drive` for a drive-letter path: the letter and the colon,
      or nothing. */
  function WindowsDrive(p: string): (r: string)
    ensures r == [] || (|p| >= 2 && r == p[..2] && r[1] == ':')
    ensures r != [] <==> |p| >= 2 && IsAsciiLetter(p[0]) && p[1] == ':'
  {
    if |p| >= 2 && IsAsciiLetter(p[0]) && p[1] == ':' then p[..2] else ""
  }

  /** The character of a decimal digit. */
  function DigitChar(d: nat): (c: char)
    requires d < 10
    ensures '0' <= c <= '9'
  {
    (48 + d) as char
  }

  /** `str(n)` for a non-negative integer: its decimal digits, without leading zeros. */
  function DecimalString(n: nat): (r: string)
    ensures |r| >= 1
    ensures forall i :: 0 <= i < |r| ==> '0' <= r[i] <= '9'
    ensures n >= 10 ==> |r| >= 2
  {
    if n < 10 then [DigitChar(n)] else DecimalString(n / 10) + [DigitChar(n % 10)]
  }

  /** `int(s)` for a string of decimal digits. */
  function DecimalValue(s: string): nat
    requires forall i :: 0 <= i < |s| ==> '0' <= s[i] <= '9'
  {
    if s == [] then 0 else 10 * DecimalValue(s[..|s| - 1]) + (s[|s| - 1] as int - 48)
  }

  /** `int(str(n)) == n`: the counter written into a path can be read back. */
  lemma {:induction false} DecimalRoundTrip(n: nat)
    ensures DecimalValue(DecimalString(n)) == n
  {
    if n >= 10 {
      var s := DecimalString(n);
      assert s[..|s| - 1] == DecimalString(n / 10);
      DecimalRoundTrip(n / 10);
    }
  }

  /** Different counters give different strings. */
  lemma DecimalStringInjective(a: nat, b: nat)
    requires DecimalString(a) == DecimalString(b)
    ensures a == b
  {
    DecimalRoundTrip(a);
    DecimalRoundTrip(b);
  }
}
