/** The parts of Go's `strings` package the operator relies on. A `string` is a sequence of
    code points; Go compares UTF-8 bytes, which orders valid strings the same way. */
module Text {

  // ---------------------------------------------------------------- ordering

  /** Go's `a < b` on strings. */
  predicate Less(a: string, b: string) {
    if b == [] then false
    else if a == [] then true
    else a[0] < b[0] || (a[0] == b[0] && Less(a[1..], b[1..]))
  }

  lemma {:induction false} LessAsymmetric(a: string, b: string)
    requires Less(a, b)
    ensures !Less(b, a)
  {
    if a != [] && a[0] == b[0] {
      LessAsymmetric(a[1..], b[1..]);
    }
  }

  lemma {:induction false} LessTransitive(a: string, b: string, c: string)
    requires Less(a, b) && Less(b, c)
    ensures Less(a, c)
  {
    if a != [] && a[0] == b[0] == c[0] {
      LessTransitive(a[1..], b[1..], c[1..]);
    }
  }

  lemma {:induction false} LessTotal(a: string, b: string)
    ensures Less(a, b) || Less(b, a) || a == b
  {
    if a != [] && b != [] && a[0] == b[0] {
      LessTotal(a[1..], b[1..]);
      if a[1..] == b[1..] {
        assert a == [a[0]] + a[1..] == [b[0]] + b[1..] == b;
      }
    }
  }

  /** The usual definition: a proper prefix, or smaller at the first difference. */
  predicate LexicographicallyBelow(a: string, b: string) {
    exists i ::
      && 0 <= i <= |a| && i <= |b| && a[..i] == b[..i]
      && (i == |a| < |b| || (i < |a| && i < |b| && a[i] < b[i]))
  }

  lemma PrefixHead(a: string, b: string, i: nat)
    requires i <= |a| && i <= |b|
    ensures 0 < i && a[..i] == b[..i] ==> a[0] == b[0]
  {
    assert 0 < i ==> a[..i][0] == a[0] && b[..i][0] == b[0];
  }

  /** The order the comparison of URIs follows. */
  lemma {:induction false} LessIsLexicographic(a: string, b: string)
    ensures Less(a, b) <==> LexicographicallyBelow(a, b)
  {
    if b == [] {
    } else if a == [] {
      assert a[..0] == b[..0];
    } else if a[0] == b[0] {
      LessIsLexicographic(a[1..], b[1..]);
      if Less(a, b) {
        var i :| && 0 <= i <= |a[1..]| && i <= |b[1..]| && a[1..][..i] == b[1..][..i]
                 && (i == |a[1..]| < |b[1..]| || (i < |a[1..]| && i < |b[1..]| && a[1..][i] < b[1..][i]));
        assert a[..i + 1] == [a[0]] + a[1..][..i] && b[..i + 1] == [b[0]] + b[1..][..i];
      }
      if LexicographicallyBelow(a, b) {
        var i :| && 0 <= i <= |a| && i <= |b| && a[..i] == b[..i]
                 && (i == |a| < |b| || (i < |a| && i < |b| && a[i] < b[i]));
        assert i > 0;
        assert a[1..][..i - 1] == a[..i][1..] && b[1..][..i - 1] == b[..i][1..];
      }
    } else {
      assert a[..0] == b[..0];
      if LexicographicallyBelow(a, b) {
        var i :| && 0 <= i <= |a| && i <= |b| && a[..i] == b[..i]
                 && (i == |a| < |b| || (i < |a| && i < |b| && a[i] < b[i]));
        PrefixHead(a, b, i);
      }
    }
  }

  // ---------------------------------------------------------------- Join and Split on one space

  const SPACE: char := ' '

  /** `strings.Join(parts, " ")` */
  function Join(parts: seq<string>): string {
    if parts == [] then ""
    else if |parts| == 1 then parts[0]
    else parts[0] + [SPACE] + Join(parts[1..])
  }

  /** `strings.Split(s, " ")` */
  function Split(s: string): (parts: seq<string>)
    ensures parts != []
    ensures forall p | p in parts :: SPACE !in p
  {
    if s == [] then [[]]
    else
      var rest := Split(s[1..]);
      if s[0] == SPACE then [[]] + rest
      else [[s[0]] + rest[0]] + rest[1..]
  }

  predicate Spaceless(parts: seq<string>) {
    forall p | p in parts :: SPACE !in p
  }

  lemma {:induction false} SplitWord(word: string)
    requires SPACE !in word
    ensures Split(word) == [word]
  {
    if word != [] {
      SplitWord(word[1..]);
      assert [word[0]] + word[1..] == word;
    }
  }

  lemma {:induction false} SplitAfterWord(word: string, rest: string)
    requires SPACE !in word
    ensures Split(word + [SPACE] + rest) == [word] + Split(rest)
  {
    var s := word + [SPACE] + rest;
    if word == [] {
      assert s[1..] == rest;
    } else {
      assert s[1..] == word[1..] + [SPACE] + rest;
      SplitAfterWord(word[1..], rest);
      assert [word[0]] + word[1..] == word;
    }
  }

  lemma {:induction false} SplitOfJoin(parts: seq<string>)
    requires parts != [] && Spaceless(parts)
    ensures Split(Join(parts)) == parts
  {
    if |parts| == 1 {
      SplitWord(parts[0]);
    } else {
      SplitOfJoin(parts[1..]);
      SplitAfterWord(parts[0], Join(parts[1..]));
      assert [parts[0]] + parts[1..] == parts;
    }
  }

  /** Splitting undoes joining on exactly the non-empty lists of space-free words. */
  lemma SplitJoinExact(parts: seq<string>)
    ensures Split(Join(parts)) == parts <==> parts != [] && Spaceless(parts)
  {
    if parts != [] && Spaceless(parts) {
      SplitOfJoin(parts);
    }
  }

  /** Joining undoes splitting on every string. */
  lemma {:induction false} JoinOfSplit(s: string)
    ensures Join(Split(s)) == s
  {
    if s != [] {
      var rest := Split(s[1..]);
      JoinOfSplit(s[1..]);
      assert s == [s[0]] + s[1..];
      var parts := Split(s);
      if s[0] == SPACE {
        assert parts[1..] == rest;
      } else {
        assert parts[1..] == rest[1..];
      }
    }
  }

  // ---------------------------------------------------------------- searching

  /** `strings.Index(s, sub)` */
  function Index(s: string, sub: string): (i: int)
    ensures -1 <= i <= |s|
    ensures i >= 0 ==> sub <= s[i..]
    ensures forall j | 0 <= j <= |s| && (i < 0 || j < i) :: !(sub <= s[j..])
  {
    if sub <= s then
      assert s[0..] == s;
      0
    else if s == [] then
      -1
    else
      var i := Index(s[1..], sub);
      assert forall j | 0 < j <= |s| :: s[j..] == s[1..][j - 1..];
      assert s[0..] == s;
      if i < 0 then -1 else i + 1
  }

  /** `strings.IndexAny(s, chars)` */
  function IndexAny(s: string, chars: string): (i: int)
    ensures -1 <= i < |s|
    ensures i >= 0 ==> s[i] in chars
    ensures forall j | 0 <= j < |s| && (i < 0 || j < i) :: s[j] !in chars
  {
    if s == [] then -1
    else if s[0] in chars then 0
    else
      var i := IndexAny(s[1..], chars);
      assert forall j | 0 < j < |s| :: s[j] == s[1..][j - 1];
      if i < 0 then -1 else i + 1
  }

  /** `strings.LastIndex(s, string(c))` */
  function LastIndex(s: string, c: char): (i: int)
    ensures -1 <= i < |s|
    ensures i >= 0 ==> s[i] == c
    ensures forall j | i < j < |s| :: s[j] != c
  {
    if s == [] then -1
    else if s[|s| - 1] == c then |s| - 1
    else LastIndex(s[..|s| - 1], c)
  }

  // ---------------------------------------------------------------- trimming and case

  /** `unicode.IsSpace` */
  predicate IsSpace(c: char) {
    || '\t' <= c <= '\r' || c == ' ' || c == '\U{0085}' || c == '\U{00A0}'
    || c == '\U{1680}' || '\U{2000}' <= c <= '\U{200A}'
    || c == '\U{2028}' || c == '\U{2029}' || c == '\U{202F}' || c == '\U{205F}' || c == '\U{3000}'
  }

  /** `strings.TrimSpace` */
  function TrimSpace(s: string): (t: string)
    ensures t != "" ==> !IsSpace(t[0]) && !IsSpace(t[|t| - 1])
    ensures t == "" <==> forall c | c in s :: IsSpace(c)
    decreases |s|
  {
    if s == [] then []
    else if IsSpace(s[0]) then
      assert s == [s[0]] + s[1..];
      TrimSpace(s[1..])
    else if IsSpace(s[|s| - 1]) then
      assert s == s[..|s| - 1] + [s[|s| - 1]];
      assert s[..|s| - 1] != [];
      assert s[..|s| - 1][0] == s[0];
      TrimSpace(s[..|s| - 1])
    else s
  }

  /** White space, then t, then white space. */
  predicate SpacesAround(s: string, t: string, before: string, after: string) {
    && s == before + t + after
    && (forall c | c in before :: IsSpace(c)) && (forall c | c in after :: IsSpace(c))
  }

  lemma OneMoreSpace(s: string, t: string, before: string, after: string, c: char)
    requires SpacesAround(s, t, before, after) && IsSpace(c)
    ensures SpacesAround([c] + s, t, [c] + before, after) && SpacesAround(s + [c], t, before, after + [c])
  {
  }

  /** What is trimmed is white space at both ends, and nothing else. */
  lemma {:induction false} TrimSpaceCuts(s: string) returns (before: string, after: string)
    ensures SpacesAround(s, TrimSpace(s), before, after)
    decreases |s|
  {
    before, after := "", "";
    if s == [] {
    } else if IsSpace(s[0]) {
      before, after := TrimSpaceCuts(s[1..]);
      OneMoreSpace(s[1..], TrimSpace(s[1..]), before, after, s[0]);
      assert s == [s[0]] + s[1..];
      before := [s[0]] + before;
    } else if IsSpace(s[|s| - 1]) {
      before, after := TrimSpaceCuts(s[..|s| - 1]);
      OneMoreSpace(s[..|s| - 1], TrimSpace(s[..|s| - 1]), before, after, s[|s| - 1]);
      assert s == s[..|s| - 1] + [s[|s| - 1]];
      after := after + [s[|s| - 1]];
    } else {
      assert s == "" + s + "";
    }
  }

  /** `unicode.ToLower` as far as it can produce an ASCII letter: A to Z, the dotted capital I
      and the Kelvin sign. Other characters never become ASCII and are left as they are. */
  function LowerChar(c: char): char {
    if 'A' <= c <= 'Z' then (c as int + 32) as char
    else if c == '\U{0130}' then 'i'
    else if c == '\U{212A}' then 'k'
    else c
  }

  /** `strings.ToLower` */
  function ToLower(s: string): string {
    seq(|s|, i requires 0 <= i < |s| => LowerChar(s[i]))
  }
}
