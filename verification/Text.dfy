/** Strings as the sources use them: trimming, splitting, joining and searching. */
module Text {

  datatype Option<+T> = None | Some(value: T)

  /** The white space recognised by `trim` and by `\s` in a regular expression. */
  predicate IsSpace(c: char) {
    var n := c as int;
    || 9 <= n <= 13
    || n in {0x20, 0xA0, 0x1680, 0x2028, 0x2029, 0x202F, 0x205F, 0x3000, 0xFEFF}
    || 0x2000 <= n <= 0x200A
  }

  /** The characters that `.` does not match in a regular expression. */
  predicate IsLineTerminator(c: char) {
    c as int in {0x0A, 0x0D, 0x2028, 0x2029}
  }

  function TrimStart(s: string): string {
    if s != "" && IsSpace(s[0]) then TrimStart(s[1..]) else s
  }

  function TrimEnd(s: string): string {
    if s != "" && IsSpace(s[|s| - 1]) then TrimEnd(s[..|s| - 1]) else s
  }

  function Trim(s: string): string {
    TrimEnd(TrimStart(s))
  }

  predicate IsTrimmed(s: string) {
    s == "" || (!IsSpace(s[0]) && !IsSpace(s[|s| - 1]))
  }

  lemma {:induction false} TrimStartSpaces(s: string)
    ensures TrimStart(s) == "" || !IsSpace(TrimStart(s)[0])
  {
    if s != "" && IsSpace(s[0]) {
      TrimStartSpaces(s[1..]);
    }
  }

  lemma {:induction false} TrimEndPrefix(s: string)
    ensures TrimEnd(s) <= s
    ensures TrimEnd(s) == "" || !IsSpace(TrimEnd(s)[|TrimEnd(s)| - 1])
  {
    if s != "" && IsSpace(s[|s| - 1]) {
      TrimEndPrefix(s[..|s| - 1]);
    }
  }

  /** Trimming removes all outer white space, so it changes nothing exactly on trimmed strings. */
  lemma TrimIsTrimmed(s: string)
    ensures IsTrimmed(Trim(s))
    ensures Trim(s) == s <==> IsTrimmed(s)
  {
    TrimStartSpaces(s);
    TrimEndPrefix(TrimStart(s));
  }

  lemma TrimOfTrimmed(s: string)
    requires IsTrimmed(s)
    ensures Trim(s) == s
  {
    TrimIsTrimmed(s);
  }

  predicate AllSpace(s: string) {
    forall c | c in s :: IsSpace(c)
  }

  lemma {:induction false} TrimStartGap(gap: string, s: string)
    requires AllSpace(gap) && (s == "" || !IsSpace(s[0]))
    ensures TrimStart(gap + s) == s
  {
    if gap == "" {
      assert gap + s == s;
    } else {
      assert gap[0] in gap && (gap + s)[1..] == gap[1..] + s;
      TrimStartGap(gap[1..], s);
    }
  }

  lemma {:induction false} TrimEndGap(s: string, gap: string)
    requires AllSpace(gap) && (s == "" || !IsSpace(s[|s| - 1]))
    ensures TrimEnd(s + gap) == s
  {
    if gap == "" {
      assert s + gap == s;
    } else {
      var n := |gap| - 1;
      assert gap[n] in gap && (s + gap)[..|s| + n] == s + gap[..n];
      TrimEndGap(s, gap[..n]);
    }
  }

  /** Trimming drops any margins. */
  lemma TrimMargins(left: string, s: string, right: string)
    requires AllSpace(left) && IsTrimmed(s) && AllSpace(right)
    ensures Trim(left + s + right) == s
  {
    if s == "" {
      assert left + s + right == (left + right) + "";
      TrimStartGap(left + right, "");
    } else {
      assert left + s + right == left + (s + right);
      TrimStartGap(left, s + right);
      TrimEndGap(s, right);
    }
  }

  /** Always yields at least one part, as `split` does. */
  function Split(s: string, sep: char): (parts: seq<string>)
    ensures |parts| > 0
  {
    if s == "" then [""]
    else
      var rest := Split(s[1..], sep);
      if s[0] == sep then [""] + rest else [[s[0]] + rest[0]] + rest[1..]
  }

  function Join(parts: seq<string>, sep: string): string {
    if parts == [] then ""
    else if |parts| == 1 then parts[0]
    else parts[0] + sep + Join(parts[1..], sep)
  }

  lemma {:induction false} SplitPlain(s: string, sep: char)
    requires sep !in s
    ensures Split(s, sep) == [s]
  {
    if s != "" {
      SplitPlain(s[1..], sep);
      assert [s[0]] + s[1..] == s;
    }
  }

  lemma {:induction false} SplitAtSeparator(head: string, sep: char, tail: string)
    requires sep !in head
    ensures Split(head + [sep] + tail, sep) == [head] + Split(tail, sep)
  {
    var s := head + [sep] + tail;
    if head == "" {
      assert s[1..] == tail;
    } else {
      SplitAtSeparator(head[1..], sep, tail);
      assert s[1..] == head[1..] + [sep] + tail;
      assert [s[0]] + head[1..] == head;
    }
  }

  lemma {:induction false} SplitJoin(parts: seq<string>, sep: char)
    requires parts != []
    requires forall part | part in parts :: sep !in part
    ensures Split(Join(parts, [sep]), sep) == parts
  {
    if |parts| == 1 {
      SplitPlain(parts[0], sep);
    } else {
      var tail := Join(parts[1..], [sep]);
      SplitJoin(parts[1..], sep);
      SplitAtSeparator(parts[0], sep, tail);
      assert Join(parts, [sep]) == parts[0] + [sep] + tail;
      assert parts == [parts[0]] + parts[1..];
    }
  }

  /** Joined keys stand for the lists they were made from, as long as no part holds the separator. */
  lemma {:induction false} JoinInjective(left: seq<string>, right: seq<string>, sep: char)
    requires left != [] && right != []
    requires forall part | part in left :: sep !in part
    requires forall part | part in right :: sep !in part
    ensures Join(left, [sep]) == Join(right, [sep]) <==> left == right
  {
    SplitJoin(left, sep);
    SplitJoin(right, sep);
  }

  /** The parts that are not empty, in order. */
  function NonEmpty(parts: seq<string>): seq<string> {
    if parts == [] then []
    else if parts[0] == "" then NonEmpty(parts[1..])
    else [parts[0]] + NonEmpty(parts[1..])
  }

  predicate AreSegments(slug: seq<string>) {
    forall segment | segment in slug :: segment != "" && '/' !in segment
  }

  lemma {:induction false} NonEmptySegments(segments: seq<string>)
    requires AreSegments(segments)
    ensures NonEmpty(segments) == segments
  {
    if segments != [] {
      assert segments[0] in segments;
      forall segment | segment in segments[1..] ensures segment in segments {
      }
      NonEmptySegments(segments[1..]);
    }
  }

  /** A path of segments splits into them. */
  lemma {:induction false} PathSegments(segments: seq<string>)
    requires AreSegments(segments) && segments != []
    ensures NonEmpty(Split("/" + Join(segments, "/"), '/')) == segments
  {
    SplitJoin(segments, '/');
    assert "/" + Join(segments, "/") == "" + "/" + Join(segments, "/");
    SplitAtSeparator("", '/', Join(segments, "/"));
    NonEmptySegments(segments);
    assert ([""] + segments)[1..] == segments;
  }

  predicate OccursAt(s: string, pat: string, i: nat) {
    i + |pat| <= |s| && s[i..i + |pat|] == pat
  }

  lemma StartsDiffer(raw: string, pat: string, i: nat)
    requires pat != "" && i < |raw| && raw[i] != pat[0]
    ensures !OccursAt(raw, pat, i)
  {
    if i + |pat| <= |raw| {
      assert raw[i..i + |pat|][0] == raw[i];
    }
  }

  /** The first position at or after `from` where `pat` occurs, or -1. */
  function IndexOf(s: string, pat: string, from: nat): (at: int)
    ensures at == -1 || (from <= at && OccursAt(s, pat, at))
    ensures forall i: nat | from <= i && (at == -1 || i < at) :: !OccursAt(s, pat, i)
    decreases |s| - from
  {
    if OccursAt(s, pat, from) then from
    else if from >= |s| then -1
    else IndexOf(s, pat, from + 1)
  }

  /** The last position below `upTo` where `pat` occurs, or -1. */
  function LastIndexOf(s: string, pat: string, upTo: nat): (at: int)
    ensures at == -1 || (0 <= at < upTo && OccursAt(s, pat, at))
    ensures forall i: nat | at < i < upTo :: !OccursAt(s, pat, i)
  {
    if upTo == 0 then -1
    else if OccursAt(s, pat, upTo - 1) then upTo - 1
    else LastIndexOf(s, pat, upTo - 1)
  }

  function Repeat(s: string, n: nat): string {
    if n == 0 then "" else s + Repeat(s, n - 1)
  }

  function ReplaceCRLF(s: string): string {
    if |s| < 2 then s
    else if s[0] == '\r' && s[1] == '\n' then "\n" + ReplaceCRLF(s[2..])
    else [s[0]] + ReplaceCRLF(s[1..])
  }

  lemma {:induction false} ReplaceCRLFAbsent(s: string)
    requires '\r' !in s
    ensures ReplaceCRLF(s) == s
  {
    if |s| >= 2 {
      ReplaceCRLFAbsent(s[1..]);
    }
  }

  lemma Associative<T>(a: seq<T>, b: seq<T>, c: seq<T>)
    ensures (a + b) + c == a + (b + c)
  {
  }

  /** The texts of all elements, one after the other. */
  function Concat<T>(text: T -> string, ts: seq<T>): string {
    if ts == [] then "" else Concat(text, ts[..|ts| - 1]) + text(ts[|ts| - 1])
  }

  lemma {:induction false} ConcatAppend<T>(text: T -> string, left: seq<T>, right: seq<T>)
    ensures Concat(text, left + right) == Concat(text, left) + Concat(text, right)
  {
    if right == [] {
      assert left + right == left;
    } else {
      var n := |right| - 1;
      ConcatAppend(text, left, right[..n]);
      assert (left + right)[..|left| + n] == left + right[..n];
      Associative(Concat(text, left), Concat(text, right[..n]), text(right[n]));
    }
  }

  function MapAll<S, T>(f: S -> T, ss: seq<S>): (ts: seq<T>)
    ensures |ts| == |ss| && forall k | 0 <= k < |ts| :: ts[k] == f(ss[k])
  {
    if ss == [] then [] else [f(ss[0])] + MapAll(f, ss[1..])
  }

  lemma {:induction false} MapAllAppend<S, T>(f: S -> T, left: seq<S>, right: seq<S>)
    ensures MapAll(f, left + right) == MapAll(f, left) + MapAll(f, right)
  {
    if left == [] {
      assert left + right == right;
    } else {
      assert (left + right)[1..] == left[1..] + right;
      MapAllAppend(f, left[1..], right);
    }
  }

  lemma {:induction false} MapAllSlice<S, T>(f: S -> T, ss: seq<S>, i: nat, j: nat)
    requires i <= j <= |ss|
    ensures MapAll(f, ss[i..j]) == MapAll(f, ss)[i..j]
  {
    var part, all := MapAll(f, ss[i..j]), MapAll(f, ss);
    forall k | 0 <= k < j - i ensures part[k] == all[i..j][k] {
      assert ss[i..j][k] == ss[i + k];
    }
  }

  lemma ConcatOne<T>(text: T -> string, t: T)
    ensures Concat(text, [t]) == text(t)
  {
    assert [t][..0] == [];
    assert "" + text(t) == text(t);
  }

  // ----- Decimal numerals -----

  function DecimalDigit(d: nat): char
    requires d < 10
  {
    (('0' as int) + d) as char
  }

  function Decimal(n: nat): (s: string)
    ensures s != ""
  {
    if n < 10 then [DecimalDigit(n)] else Decimal(n / 10) + [DecimalDigit(n % 10)]
  }

  function ReadDecimal(s: string): int {
    if s == "" then 0 else 10 * ReadDecimal(s[..|s| - 1]) + (s[|s| - 1] as int - '0' as int)
  }

  /** A numeral determines its number, and holds no colon. */
  lemma {:induction false} DecimalReads(n: nat)
    ensures ReadDecimal(Decimal(n)) == n
    ensures ':' !in Decimal(n)
  {
    if n >= 10 {
      DecimalReads(n / 10);
      assert Decimal(n)[..|Decimal(n)| - 1] == Decimal(n / 10);
    } else {
      assert Decimal(n)[..0] == "";
    }
  }
}
