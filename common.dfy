/** Small shared vocabulary: an optional value, and the character classes and
    string searches that JavaScript and Python built-ins use. */
module Common {

  datatype Option<T> = None | Some(value: T)

  /** Characters removed by JavaScript's String.prototype.trim and matched by
      `\s` in a JavaScript regular expression (WhiteSpace and LineTerminator). */
  predicate IsJsSpace(c: char)
  {
    c == ' ' || c == '\t' || c == '\n' || c == '\r' || c == '\U{000B}' || c == '\U{000C}'
    || c == '\U{00A0}' || c == '\U{1680}' || ('\U{2000}' <= c <= '\U{200A}')
    || c == '\U{2028}' || c == '\U{2029}' || c == '\U{202F}' || c == '\U{205F}'
    || c == '\U{3000}' || c == '\U{FEFF}'
  }

  /** Characters for which Python's str.isspace holds (removed by str.strip()). */
  predicate IsPySpace(c: char)
  {
    c == ' ' || ('\t' <= c <= '\r') || ('\U{001C}' <= c <= '\U{001F}') || c == '\U{0085}'
    || c == '\U{00A0}' || c == '\U{1680}' || ('\U{2000}' <= c <= '\U{200A}')
    || c == '\U{2028}' || c == '\U{2029}' || c == '\U{202F}' || c == '\U{205F}'
    || c == '\U{3000}'
  }

  /** Characters that `.` does not match in a JavaScript regular expression. */
  predicate IsLineTerminator(c: char)
  {
    c == '\n' || c == '\r' || c == '\U{2028}' || c == '\U{2029}'
  }

  /** No character of `s` is a line terminator: `s` can be matched by `.*`. */
  predicate NoTerminator(s: string)
  {
    forall i | 0 <= i < |s| :: !IsLineTerminator(s[i])
  }

  /** The names every plain JavaScript object inherits from Object.prototype:
      looking one up on an object literal does not give `undefined`, and the
      `in` operator finds it. */
  const InheritedNames: set<string> := {
    "constructor", "__defineGetter__", "__defineSetter__", "hasOwnProperty",
    "__lookupGetter__", "__lookupSetter__", "isPrototypeOf", "propertyIsEnumerable",
    "toString", "valueOf", "__proto__", "toLocaleString"}

  predicate IsAsciiDigit(c: char)
  {
    '0' <= c <= '9'
  }

  predicate AllChars(s: string, p: char -> bool)
  {
    forall i | 0 <= i < |s| :: p(s[i])
  }

  /** Which language's notion of white space a trim uses. */
  datatype Spaces = JsSpaces | PySpaces

  predicate IsSpace(sp: Spaces, c: char)
  {
    if sp.JsSpaces? then IsJsSpace(c) else IsPySpace(c)
  }

  predicate AllSpace(sp: Spaces, s: string)
  {
    forall i | 0 <= i < |s| :: IsSpace(sp, s[i])
  }

  /** Removes the longest prefix of white space. */
  function TrimStart(s: string, sp: Spaces): (r: string)
    ensures |r| <= |s|
  {
    if s != [] && IsSpace(sp, s[0]) then TrimStart(s[1..], sp) else s
  }

  /** TrimStart removes exactly the longest white-space prefix: what it
      drops is white space, and what it keeps is a suffix that does not
      start with white space. */
  lemma {:induction false} TrimStartShape(s: string, sp: Spaces)
    ensures var r := TrimStart(s, sp);
            r == s[|s| - |r|..] && (r == [] || !IsSpace(sp, r[0])) && AllSpace(sp, s[..|s| - |r|])
  {
    if s != [] && IsSpace(sp, s[0]) {
      TrimStartShape(s[1..], sp);
      var r := TrimStart(s, sp);
      assert s[1..][|s| - 1 - |r|..] == s[|s| - |r|..];
      forall i | 0 <= i < |s| - |r| ensures IsSpace(sp, s[i]) {
        if i > 0 {
          assert s[1..][..|s| - 1 - |r|][i - 1] == s[i];
        }
      }
    }
  }

  /** Removes the longest suffix of white space. */
  function TrimEnd(s: string, sp: Spaces): (r: string)
    ensures |r| <= |s|
  {
    if s != [] && IsSpace(sp, s[|s| - 1]) then TrimEnd(s[..|s| - 1], sp) else s
  }

  /** TrimEnd removes exactly the longest white-space suffix. */
  lemma {:induction false} TrimEndShape(s: string, sp: Spaces)
    ensures var r := TrimEnd(s, sp);
            r == s[..|r|] && (r == [] || !IsSpace(sp, r[|r| - 1])) && AllSpace(sp, s[|r|..])
  {
    if s != [] && IsSpace(sp, s[|s| - 1]) {
      var n := |s| - 1;
      TrimEndShape(s[..n], sp);
      var r := TrimEnd(s, sp);
      assert s[..n][..|r|] == s[..|r|];
      forall i | |r| <= i < |s| ensures IsSpace(sp, s[i]) {
        if i < n {
          assert s[..n][|r|..][i - |r|] == s[i];
        }
      }
    }
  }

  function Trim(s: string, sp: Spaces): string
  {
    TrimEnd(TrimStart(s, sp), sp)
  }

  /** A text that neither starts nor ends with white space is its own trim. */
  lemma TrimKeeps(s: string, sp: Spaces)
    requires s != [] ==> !IsSpace(sp, s[0]) && !IsSpace(sp, s[|s| - 1])
    ensures Trim(s, sp) == s
  {
  }

  /** Trimming a trimmed text changes nothing. */
  lemma TrimIdempotent(s: string, sp: Spaces)
    ensures Trim(Trim(s, sp), sp) == Trim(s, sp)
  {
    var t := TrimStart(s, sp);
    TrimStartShape(s, sp);
    TrimEndShape(t, sp);
    var r := TrimEnd(t, sp);
    if r != [] {
      assert r[0] == t[0];
    }
    TrimKeeps(r, sp);
  }

  /** JavaScript `s.trim()`. */
  function JsTrim(s: string): string
  {
    Trim(s, JsSpaces)
  }

  /** Python `s.strip()`. */
  function PyStrip(s: string): string
  {
    Trim(s, PySpaces)
  }

  predicate StartsWith(s: string, p: string)
  {
    p <= s
  }

  predicate EndsWith(s: string, p: string)
  {
    |p| <= |s| && s[|s| - |p|..] == p
  }

  predicate OccursAt(s: string, p: string, i: int)
  {
    0 <= i && i + |p| <= |s| && s[i..i + |p|] == p
  }

  /** JavaScript `s.includes(p)`, Python `p in s`. */
  predicate Contains(s: string, p: string)
  {
    exists i | 0 <= i <= |s| - |p| :: OccursAt(s, p, i)
  }

  /** Index of the first occurrence of `p` in `s` at or after `from`. */
  function IndexOfFrom(s: string, p: string, from: nat): (r: Option<nat>)
    requires p != []
    ensures r.Some? ==> from <= r.value && OccursAt(s, p, r.value)
    ensures r.Some? ==> forall j | from <= j < r.value :: !OccursAt(s, p, j)
    ensures r.None? ==> forall j | from <= j :: !OccursAt(s, p, j)
    decreases |s| - from
  {
    if from + |p| > |s| then None
    else if s[from..from + |p|] == p then Some(from)
    else IndexOfFrom(s, p, from + 1)
  }

  lemma ContainsIffIndexOf(s: string, p: string)
    requires p != []
    ensures Contains(s, p) <==> IndexOfFrom(s, p, 0).Some?
  {
    if IndexOfFrom(s, p, 0).Some? {
      assert OccursAt(s, p, IndexOfFrom(s, p, 0).value);
    }
  }

  /** Replaces every occurrence of character `a` by the string `b`. */
  function ReplaceChar(s: string, a: char, b: string): (r: string)
    ensures a !in b ==> a !in r
    ensures forall c | c in r :: c in s || c in b
  {
    if s == [] then []
    else (if s[0] == a then b else [s[0]]) + ReplaceChar(s[1..], a, b)
  }

  /** No occurrence of `p` starts before the first one, so the text before
      it does not contain `p`. */
  lemma FirstPieceFree(s: string, p: string, i: nat)
    requires p != [] && IndexOfFrom(s, p, 0) == Some(i)
    ensures !Contains(s[..i], p)
  {
    forall j | 0 <= j <= i - |p|
      ensures !OccursAt(s[..i], p, j)
    {
      if OccursAt(s[..i], p, j) {
        assert s[..i][j..j + |p|] == s[j..j + |p|];
        assert OccursAt(s, p, j);
      }
    }
  }

  /** Python `s.replace(p, v)` and JavaScript `s.replace(/p/g, v)` for a
      non-empty literal `p`: the occurrences found scanning left to right,
      without overlaps, each replaced by `v`. */
  function ReplaceAll(s: string, p: string, v: string): (r: string)
    requires p != []
    decreases |s|
  {
    match IndexOfFrom(s, p, 0)
    case None => s
    case Some(i) => s[..i] + v + ReplaceAll(s[i + |p|..], p, v)
  }

  /** JavaScript `s.split(p)`, Python `s.split(p)`: the pieces between the
      occurrences ReplaceAll replaces; no piece contains `p`. */
  function SplitOn(s: string, p: string): (r: seq<string>)
    requires p != []
    ensures |r| >= 1
    ensures forall k | 0 <= k < |r| :: !Contains(r[k], p)
    decreases |s|
  {
    match IndexOfFrom(s, p, 0)
    case None => [s]
    case Some(i) =>
      FirstPieceFree(s, p, i);
      [s[..i]] + SplitOn(s[i + |p|..], p)
  }

  /** Replacing is splitting at the occurrences and joining with the
      replacement. */
  lemma {:induction false} ReplaceAllIsJoin(s: string, p: string, v: string)
    requires p != []
    ensures ReplaceAll(s, p, v) == Join(SplitOn(s, p), v)
    decreases |s|
  {
    if IndexOfFrom(s, p, 0).Some? {
      var i := IndexOfFrom(s, p, 0).value;
      ReplaceAllIsJoin(s[i + |p|..], p, v);
      ReplaceAllUnfold(s, p, v);
      SplitOnUnfold(s, p);
      JoinCons(s[..i], SplitOn(s[i + |p|..], p), v);
    }
  }

  /** The text before the first occurrence, the replacement, then the
      replaced rest. */
  lemma ReplaceAllUnfold(s: string, p: string, v: string)
    requires p != [] && IndexOfFrom(s, p, 0).Some?
    ensures var i := IndexOfFrom(s, p, 0).value;
            ReplaceAll(s, p, v) == s[..i] + v + ReplaceAll(s[i + |p|..], p, v)
  {
  }

  /** Joining the pieces with `p` gives back the text. */
  lemma {:induction false} SplitOnJoin(s: string, p: string)
    requires p != []
    ensures Join(SplitOn(s, p), p) == s
    decreases |s|
  {
    if IndexOfFrom(s, p, 0).Some? {
      var i := IndexOfFrom(s, p, 0).value;
      SplitOnJoin(s[i + |p|..], p);
      SplitOnUnfold(s, p);
      JoinCons(s[..i], SplitOn(s[i + |p|..], p), p);
      AroundOccurrence(s, p, i);
    }
  }

  /** The first piece, then the pieces of the rest. */
  lemma SplitOnUnfold(s: string, p: string)
    requires p != [] && IndexOfFrom(s, p, 0).Some?
    ensures var i := IndexOfFrom(s, p, 0).value;
            SplitOn(s, p) == [s[..i]] + SplitOn(s[i + |p|..], p)
  {
  }

  /** Joining a head before non-empty pieces puts a separator between them. */
  lemma JoinCons(head: string, rest: seq<string>, sep: string)
    requires rest != []
    ensures Join([head] + rest, sep) == head + sep + Join(rest, sep)
  {
    assert ([head] + rest)[1..] == rest;
  }

  /** A text is what comes before an occurrence, the occurrence, and what
      comes after it. */
  lemma AroundOccurrence(s: string, p: string, i: int)
    requires OccursAt(s, p, i)
    ensures s == s[..i] + p + s[i + |p|..]
  {
    assert s == s[..i] + s[i..i + |p|] + s[i + |p|..];
  }

  /** Replacing each occurrence by itself changes nothing. */
  lemma ReplaceBySelf(s: string, p: string)
    requires p != []
    ensures ReplaceAll(s, p, p) == s
  {
    ReplaceAllIsJoin(s, p, p);
    SplitOnJoin(s, p);
  }

  /** A text without `p` is left as it is. */
  lemma ReplaceAbsent(s: string, p: string, v: string)
    requires p != [] && !Contains(s, p)
    ensures ReplaceAll(s, p, v) == s
  {
    ContainsIffIndexOf(s, p);
  }

  /** A text trims to nothing exactly when it is all white space. */
  lemma TrimEmptyIffAllSpace(s: string, sp: Spaces)
    ensures Trim(s, sp) == [] <==> AllSpace(sp, s)
  {
    var t := TrimStart(s, sp);
    TrimStartShape(s, sp);
    TrimEndShape(t, sp);
    if t != [] {
      assert !IsSpace(sp, t[0]);
      assert s[|s| - |t|] == t[0];
    }
  }

  /** A text without `a` is left as it is. */
  lemma {:induction false} ReplaceCharAbsent(s: string, a: char, b: string)
    requires a !in s
    ensures ReplaceChar(s, a, b) == s
  {
    if s != [] {
      ReplaceCharAbsent(s[1..], a, b);
    }
  }

  /** ReplaceChar works piece by piece. */
  lemma {:induction false} ReplaceCharAppend(s: string, t: string, a: char, b: string)
    ensures ReplaceChar(s + t, a, b) == ReplaceChar(s, a, b) + ReplaceChar(t, a, b)
  {
    if s == [] {
      assert s + t == t;
    } else {
      assert (s + t)[0] == s[0] && (s + t)[1..] == s[1..] + t;
      ReplaceCharAppend(s[1..], t, a, b);
    }
  }

  /** The decimal digits of `n`, without leading zeros (Python `str(int)`, JavaScript `${n}`). */
  function NatToString(n: nat): (r: string)
    ensures r != [] && AllChars(r, IsAsciiDigit)
    decreases n
  {
    var d := [(('0' as int) + n % 10) as char];
    if n < 10 then d else NatToString(n / 10) + d
  }

  function DigitValue(c: char): nat
    requires IsAsciiDigit(c)
  {
    (c as int) - ('0' as int)
  }

  /** The value of a string of decimal digits (Python `int(s)` on such a string). */
  function DigitsToNat(s: string): nat
    requires AllChars(s, IsAsciiDigit)
  {
    if s == [] then 0 else 10 * DigitsToNat(s[..|s| - 1]) + DigitValue(s[|s| - 1])
  }

  lemma {:induction false} DigitsRoundTrip(n: nat)
    ensures DigitsToNat(NatToString(n)) == n
  {
    var d := [(('0' as int) + n % 10) as char];
    if n >= 10 {
      DigitsRoundTrip(n / 10);
      var s := NatToString(n / 10) + d;
      assert s[..|s| - 1] == NatToString(n / 10);
    }
  }

  /** ASCII lower-casing of one character. */
  function AsciiLower(c: char): char
  {
    if 'A' <= c <= 'Z' then (c as int + 32) as char else c
  }

  function AsciiLowerString(s: string): (r: string)
    ensures |r| == |s|
    ensures forall i | 0 <= i < |s| :: r[i] == AsciiLower(s[i])
  {
    if s == [] then [] else [AsciiLower(s[0])] + AsciiLowerString(s[1..])
  }

  function AsciiUpper(c: char): char
  {
    if 'a' <= c <= 'z' then (c as int - 32) as char else c
  }

  function AsciiUpperString(s: string): (r: string)
    ensures |r| == |s|
    ensures forall i | 0 <= i < |s| :: r[i] == AsciiUpper(s[i])
  {
    if s == [] then [] else [AsciiUpper(s[0])] + AsciiUpperString(s[1..])
  }

  /** Python `sep.join(parts)` / JavaScript `parts.join(sep)`. */
  function Join(parts: seq<string>, sep: string): string
  {
    if parts == [] then []
    else if |parts| == 1 then parts[0]
    else parts[0] + sep + Join(parts[1..], sep)
  }

  /** JavaScript `s.split(sep)` / Python `s.split(sep)` for a one-character
      separator: the pieces between the separators, at least one. */
  function Split(s: string, sep: char): (r: seq<string>)
    ensures |r| >= 1
    ensures forall k | 0 <= k < |r| :: sep !in r[k]
  {
    if s == [] then [[]]
    else
      var rest := Split(s[1..], sep);
      if s[0] == sep then [[]] + rest else [[s[0]] + rest[0]] + rest[1..]
  }

  /** Joining the pieces with the separator gives back the input. */
  lemma {:induction false} SplitJoin(s: string, sep: char)
    ensures Join(Split(s, sep), [sep]) == s
  {
    if s != [] {
      var rest := Split(s[1..], sep);
      SplitJoin(s[1..], sep);
      if s[0] == sep {
        assert Split(s, sep) == [[]] + rest;
        assert Split(s, sep)[1..] == rest;
      } else {
        var r := [[s[0]] + rest[0]] + rest[1..];
        assert Split(s, sep) == r;
        if |rest| == 1 {
          assert Join(r, [sep]) == [s[0]] + rest[0];
        } else {
          assert r[1..] == rest[1..];
          assert Join(rest, [sep]) == rest[0] + [sep] + Join(rest[1..], [sep]);
        }
      }
    }
  }

  /** A text without the separator is one piece. */
  lemma {:induction false} SplitFree(s: string, sep: char)
    requires sep !in s
    ensures Split(s, sep) == [s]
  {
    if s != [] {
      SplitFree(s[1..], sep);
      assert [s[0]] + s[1..] == s;
    }
  }

  /** A separator-free piece before the first separator splits off whole. */
  lemma {:induction false} SplitFirst(a: string, t: string, sep: char)
    requires sep !in a
    ensures Split(a + [sep] + t, sep) == [a] + Split(t, sep)
  {
    if a == [] {
      assert a + [sep] + t == [sep] + t;
      assert ([sep] + t)[1..] == t;
    } else {
      SplitFirst(a[1..], t, sep);
      assert (a + [sep] + t)[1..] == a[1..] + [sep] + t;
      assert [a[0]] + a[1..] == a;
    }
  }

  /** Splitting undoes joining when no piece holds the separator. */
  lemma {:induction false} JoinSplit(parts: seq<string>, sep: char)
    requires parts != []
    requires forall k | 0 <= k < |parts| :: sep !in parts[k]
    ensures Split(Join(parts, [sep]), sep) == parts
  {
    if |parts| == 1 {
      SplitFree(parts[0], sep);
    } else {
      JoinSplit(parts[1..], sep);
      SplitFirst(parts[0], Join(parts[1..], [sep]), sep);
      assert [parts[0]] + parts[1..] == parts;
    }
  }
  /** Splitting on a character is splitting on the one-character pattern:
      the two definitions of `split` agree. */
  lemma SplitIsSplitOn(s: string, sep: char)
    ensures Split(s, sep) == SplitOn(s, [sep])
  {
    var parts := SplitOn(s, [sep]);
    forall k | 0 <= k < |parts| ensures sep !in parts[k] {
      if sep in parts[k] {
        var i :| 0 <= i < |parts[k]| && parts[k][i] == sep;
        assert OccursAt(parts[k], [sep], i);
      }
    }
    SplitOnJoin(s, [sep]);
    JoinSplit(parts, sep);
  }


  /** Replacing a character the pieces do not hold only rewrites the separators. */
  lemma {:induction false} ReplaceCharJoin(parts: seq<string>, sep: string, a: char, b: string)
    requires forall k | 0 <= k < |parts| :: a !in parts[k]
    ensures ReplaceChar(Join(parts, sep), a, b) == Join(parts, ReplaceChar(sep, a, b))
  {
    if |parts| == 1 {
      ReplaceCharAbsent(parts[0], a, b);
    } else if |parts| > 1 {
      ReplaceCharJoin(parts[1..], sep, a, b);
      ReplaceCharAbsent(parts[0], a, b);
      ReplaceCharAppend(parts[0] + sep, Join(parts[1..], sep), a, b);
      ReplaceCharAppend(parts[0], sep, a, b);
    }
  }

  /** A join of non-empty pieces starts like the first and ends like the last. */
  lemma {:induction false} JoinEnds(parts: seq<string>, sep: string)
    requires parts != []
    requires forall k | 0 <= k < |parts| :: parts[k] != []
    ensures var j := Join(parts, sep);
            var last := parts[|parts| - 1];
            j != [] && j[0] == parts[0][0] && j[|j| - 1] == last[|last| - 1]
  {
    if |parts| > 1 {
      JoinEnds(parts[1..], sep);
    }
  }

  /** No two underscores are adjacent in `s`. */
  predicate NoDoubleUnderscore(s: string)
  {
    forall i | 0 <= i < |s| - 1 :: !(s[i] == '_' && s[i + 1] == '_')
  }

  /** Having no adjacent underscores is not containing "__". */
  lemma NoDoubleIffNotContains(s: string)
    ensures NoDoubleUnderscore(s) <==> !Contains(s, "__")
  {
    if !NoDoubleUnderscore(s) {
      var i :| 0 <= i < |s| - 1 && s[i] == '_' && s[i + 1] == '_';
      assert OccursAt(s, "__", i);
    }
    if Contains(s, "__") {
      var i :| 0 <= i <= |s| - 2 && OccursAt(s, "__", i);
      assert s[i] == s[i..i + 2][0] && s[i + 1] == s[i..i + 2][1];
    }
  }

  /** Every run of underscores shortened to one; `afterUnderscore` says the
      text before `s` ended with one (JavaScript `s.replace(/_{2,}/g, '_')`,
      and the fixed point of Python's `s.replace('__', '_')`). */
  function SqueezeUnderscores(s: string, afterUnderscore: bool): (r: string)
    ensures |r| <= |s|
    ensures NoDoubleUnderscore(r) && (afterUnderscore && r != [] ==> r[0] != '_')
    ensures forall c | c in r :: c in s
  {
    if s == [] then []
    else if s[0] == '_' then (if afterUnderscore then [] else "_") + SqueezeUnderscores(s[1..], true)
    else [s[0]] + SqueezeUnderscores(s[1..], false)
  }

  /** A text without adjacent underscores is left as it is. */
  lemma {:induction false} SqueezeKeeps(s: string, afterUnderscore: bool)
    requires NoDoubleUnderscore(s) && (afterUnderscore && s != [] ==> s[0] != '_')
    ensures SqueezeUnderscores(s, afterUnderscore) == s
  {
    if s != [] {
      SqueezeKeeps(s[1..], s[0] == '_');
    }
  }

  /** Whether squeezing after `a` continues a run of underscores. */
  function EndsInUnderscore(a: string, afterUnderscore: bool): bool
  {
    if a == [] then afterUnderscore else a[|a| - 1] == '_'
  }

  /** Squeezing a concatenation squeezes each part, the second knowing how
      the first ended. */
  lemma {:induction false} SqueezeAppend(a: string, b: string, afterUnderscore: bool)
    ensures SqueezeUnderscores(a + b, afterUnderscore)
            == SqueezeUnderscores(a, afterUnderscore) + SqueezeUnderscores(b, EndsInUnderscore(a, afterUnderscore))
  {
    if a != [] {
      var t := a[1..];
      assert a == [a[0]] + t;
      assert a + b == [a[0]] + (t + b);
      SqueezeCons(a[0], t + b, afterUnderscore);
      SqueezeCons(a[0], t, afterUnderscore);
      SqueezeAppend(t, b, a[0] == '_');
      if |a| > 1 {
        assert t[|t| - 1] == a[|a| - 1];
      }
    } else {
      assert a + b == b;
    }
  }

  /** Squeezing a text that starts with `x`. */
  lemma SqueezeCons(x: char, s: string, afterUnderscore: bool)
    ensures SqueezeUnderscores([x] + s, afterUnderscore)
            == (if x == '_' then (if afterUnderscore then [] else "_") else [x]) + SqueezeUnderscores(s, x == '_')
  {
    assert ([x] + s)[0] == x && ([x] + s)[1..] == s;
  }

  /** One pass of Python's `s.replace('__', '_')` leaves the squeezed text
      as it was. */
  lemma {:induction false} SqueezeAfterReplace(s: string, afterUnderscore: bool)
    ensures SqueezeUnderscores(ReplaceAll(s, "__", "_"), afterUnderscore) == SqueezeUnderscores(s, afterUnderscore)
    decreases |s|
  {
    if IndexOfFrom(s, "__", 0).Some? {
      var i := IndexOfFrom(s, "__", 0).value;
      var tail := s[i + 2..];
      ReplaceAt(s, "__", "_");
      SqueezeAfterReplace(tail, true);
      SqueezeDoubleStep(s[..i], tail, ReplaceAll(tail, "__", "_"), afterUnderscore);
    } else {
      assert ReplaceAll(s, "__", "_") == s;
    }
  }

  /** Two underscores squeeze like one, whatever comes after them squeezes
      alike. */
  lemma SqueezeDoubleStep(head: string, tail: string, rest: string, afterUnderscore: bool)
    requires SqueezeUnderscores(rest, true) == SqueezeUnderscores(tail, true)
    ensures SqueezeUnderscores(head + "_" + rest, afterUnderscore)
            == SqueezeUnderscores(head + "__" + tail, afterUnderscore)
  {
    assert head + "__" + tail == head + ("__" + tail);
    assert head + "_" + rest == head + ("_" + rest);
    DoubleUnderscore(tail, rest, EndsInUnderscore(head, afterUnderscore));
    SqueezeSameHead(head, "_" + rest, "__" + tail, afterUnderscore);
  }

  /** "__" then `tail` squeezes like "_" then `rest`. */
  lemma DoubleUnderscore(tail: string, rest: string, after: bool)
    requires SqueezeUnderscores(rest, true) == SqueezeUnderscores(tail, true)
    ensures SqueezeUnderscores("_" + rest, after) == SqueezeUnderscores("__" + tail, after)
  {
    assert "__" + tail == "_" + ("_" + tail);
    SqueezeCons('_', "_" + tail, after);
    SqueezeCons('_', tail, true);
    SqueezeCons('_', rest, after);
  }

  /** Texts that squeeze alike after `head` still do with `head` before them. */
  lemma SqueezeSameHead(head: string, x: string, y: string, afterUnderscore: bool)
    requires SqueezeUnderscores(x, EndsInUnderscore(head, afterUnderscore))
             == SqueezeUnderscores(y, EndsInUnderscore(head, afterUnderscore))
    ensures SqueezeUnderscores(head + x, afterUnderscore) == SqueezeUnderscores(head + y, afterUnderscore)
  {
    SqueezeAppend(head, x, afterUnderscore);
    SqueezeAppend(head, y, afterUnderscore);
  }

  /** The text around the first occurrence of `p`, and its replacement. */
  lemma ReplaceAt(s: string, p: string, v: string)
    requires p != [] && IndexOfFrom(s, p, 0).Some?
    ensures var i := IndexOfFrom(s, p, 0).value;
            s == s[..i] + p + s[i + |p|..]
            && ReplaceAll(s, p, v) == s[..i] + v + ReplaceAll(s[i + |p|..], p, v)
  {
    AroundOccurrence(s, p, IndexOfFrom(s, p, 0).value);
    ReplaceAllUnfold(s, p, v);
  }

  /** A replacement by something shorter shortens a text that contains
      the pattern. */
  lemma {:induction false} ReplaceShortens(s: string, p: string, v: string)
    requires p != [] && |v| < |p| && Contains(s, p)
    ensures |ReplaceAll(s, p, v)| < |s|
    decreases |s|
  {
    ContainsIffIndexOf(s, p);
    var i := IndexOfFrom(s, p, 0).value;
    var tail := s[i + |p|..];
    ReplaceNotLonger(tail, p, v);
  }

  lemma {:induction false} ReplaceNotLonger(s: string, p: string, v: string)
    requires p != [] && |v| < |p|
    ensures |ReplaceAll(s, p, v)| <= |s|
    decreases |s|
  {
    match IndexOfFrom(s, p, 0)
    case None =>
    case Some(i) => ReplaceNotLonger(s[i + |p|..], p, v);
  }
}
