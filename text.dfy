/** The string operations the window applies to file names and extensions:
    Python's `str.upper()`, the ordering `sorted()` uses, `str.split('.')`
    and `os.path.basename`. */
module Text {

  import opened Wrappers

  /** What `str.upper()` makes of one character, for every character whose
      upper-case form is ASCII: the ASCII letters, the sharp s, the dotless i,
      the long s and the seven Latin ligatures. Every other character is left
      alone. */
  function UpperChar(c: char): (r: string)
    ensures |r| >= 1
    ensures forall i :: 0 <= i < |r| ==> !IsLowerChar(r[i])
    ensures !IsLowerChar(c) ==> r == [c]
  {
    if 'a' <= c <= 'z' then [(c as int - 32) as char]
    else if c == 'ß' then "SS"
    else if c == 'ı' then "I"
    else if c == 'ſ' then "S"
    else if c == 'ﬀ' then "FF"
    else if c == 'ﬁ' then "FI"
    else if c == 'ﬂ' then "FL"
    else if c == 'ﬃ' then "FFI"
    else if c == 'ﬄ' then "FFL"
    else if c == 'ﬅ' || c == 'ﬆ' then "ST"
    else [c]
  }

  /** A character that `UpperChar` changes. */
  predicate IsLowerChar(c: char)
  {
    || 'a' <= c <= 'z'
    || c == 'ß' || c == 'ı' || c == 'ſ'
    || c == 'ﬀ' || c == 'ﬁ' || c == 'ﬂ' || c == 'ﬃ' || c == 'ﬄ' || c == 'ﬅ' || c == 'ﬆ'
  }

  /** `s.upper()`, for the characters `UpperChar` maps. A ligature or the
      sharp s becomes two or three letters, so the result can be longer. */
  function Upper(s: string): (r: string)
    ensures |r| >= |s|
    ensures forall i :: 0 <= i < |r| ==> !IsLowerChar(r[i])
  {
    if s == [] then [] else UpperChar(s[0]) + Upper(s[1..])
  }

  /** Letters outside ASCII that Python upper-cases to ASCII key letters. */
  lemma UpperBeyondAscii()
    ensures Upper("gıf") == "GIF" && Upper("ﬂac") == "FLAC" && Upper("cſv") == "CSV"
  {
  }

  /** A string with no lower-case letter is its own upper-case form. */
  lemma {:induction false} UpperOfUpper(s: string)
    requires forall i :: 0 <= i < |s| ==> !IsLowerChar(s[i])
    ensures Upper(s) == s
  {
    if s != [] {
      UpperOfUpper(s[1..]);
    }
  }

  /** Upper-casing twice is upper-casing once. */
  lemma UpperIdempotent(s: string)
    ensures Upper(Upper(s)) == Upper(s)
  {
    UpperOfUpper(Upper(s));
  }

  /** Python's `<` on `str`: lexicographic comparison by code point, a proper
      prefix coming first. */
  predicate Less(a: string, b: string)
  {
    if a == [] then b != []
    else if b == [] then false
    else if a[0] != b[0] then a[0] < b[0]
    else Less(a[1..], b[1..])
  }

  lemma {:induction false} LessIrreflexive(a: string)
    ensures !Less(a, a)
  {
    if a != [] {
      LessIrreflexive(a[1..]);
    }
  }

  lemma {:induction false} LessTransitive(a: string, b: string, c: string)
    requires Less(a, b) && Less(b, c)
    ensures Less(a, c)
  {
    if a != [] && b != [] && c != [] && a[0] == b[0] && b[0] == c[0] {
      LessTransitive(a[1..], b[1..], c[1..]);
    }
  }

  /** Any two different strings are ordered one way or the other. */
  lemma {:induction false} LessTotal(a: string, b: string)
    ensures a == b || Less(a, b) || Less(b, a)
  {
    if a != [] && b != [] && a[0] == b[0] {
      LessTotal(a[1..], b[1..]);
      if a[1..] == b[1..] {
        assert a == [a[0]] + a[1..] && b == [b[0]] + b[1..];
      }
    }
  }

  lemma LessAsymmetric(a: string, b: string)
    requires Less(a, b)
    ensures !Less(b, a)
  {
    if Less(b, a) {
      LessTransitive(a, b, a);
      LessIrreflexive(a);
    }
  }

  /** `s.split(c)[0]`: the text before the first `c`, or all of `s` when
      there is none. */
  function Before(s: string, c: char): (r: string)
    ensures c !in r
    ensures |r| <= |s| && s[..|r|] == r
    ensures |r| < |s| <==> c in s
    ensures |r| < |s| ==> s[|r|] == c
  {
    if s == [] then []
    else if s[0] == c then []
    else [s[0]] + Before(s[1..], c)
  }

  /** The text after the first `c`. */
  function After(s: string, c: char): (r: string)
    requires c in s
    ensures s == Before(s, c) + [c] + r
  {
    s[|Before(s, c)| + 1..]
  }

  /** `os.path.basename(p)` for '/'-separated paths: what follows the last
      '/', or all of `p` when it has none. */
  function Basename(p: string): (r: string)
    ensures '/' !in r
    ensures |r| <= |p| && p[|p| - |r|..] == r
    ensures |r| < |p| <==> '/' in p
    ensures |r| < |p| ==> p[|p| - |r| - 1] == '/'
  {
    if p == [] then []
    else if p[|p| - 1] == '/' then []
    else Basename(p[..|p| - 1]) + [p[|p| - 1]]
  }

  /** `name.split('.')[0]` and `name.split('.')[1]`; `None` where Python
      raises `IndexError` because the name has no '.'. */
  function SplitName(base: string): (r: Option<(string, string)>)
    ensures r.Some? <==> '.' in base
    ensures r.Some? ==> '.' !in r.value.0 && '.' !in r.value.1
    ensures r.Some? ==>
      var (name, ext) := r.value;
      var n := |name| + 1 + |ext|;
      n <= |base| && base[..n] == name + "." + ext && (n < |base| ==> base[n] == '.')
  {
    if '.' in base then
      var rest := After(base, '.');
      var ext := Before(rest, '.');
      assert base == Before(base, '.') + "." + rest;
      assert rest[..|ext|] == ext;
      Some((Before(base, '.'), ext))
    else None
  }
}
