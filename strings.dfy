/** The string primitives the source leans on, with JavaScript's semantics:
    `split`, `join`, `trim`, `toLowerCase` and `includes`. Strings are `seq<char>`. */
module Strings {
  import opened Seqs

  /** The characters `String.prototype.trim` strips (white space and line terminators). */
  predicate IsSpace(c: char) {
    || c == ' ' || c == '\t' || c == '\n' || c == '\r' || c == '\U{B}' || c == '\U{C}'
    || c == '\U{A0}' || c == '\U{FEFF}' || c == '\U{1680}' || ('\U{2000}' <= c <= '\U{200A}')
    || c == '\U{2028}' || c == '\U{2029}' || c == '\U{202F}' || c == '\U{205F}' || c == '\U{3000}'
  }

  predicate IsBlank(s: string) {
    forall i :: 0 <= i < |s| ==> IsSpace(s[i])
  }

  /** `s.trim().length > 0`, stated without trimming (see `TrimEmptyIffBlank`). */
  predicate NonBlank(s: string) {
    !IsBlank(s)
  }

  /** The capital letters of the Vietnamese alphabet that carry a diacritic. */
  predicate VietnameseCapital(c: char) {
    c == 'À' || c == 'Á' || c == 'Ả' || c == 'Ã' || c == 'Ạ' || c == 'Ă' || c == 'Ằ' || c == 'Ắ' || c == 'Ẳ' || c == 'Ẵ' || c == 'Ặ' || c == 'Â' || c == 'Ầ' || c == 'Ấ' || c == 'Ẩ' || c == 'Ẫ' || c == 'Ậ' || c == 'È' || c == 'É' || c == 'Ẻ' || c == 'Ẽ' || c == 'Ẹ' || c == 'Ê' || c == 'Ề' || c == 'Ế' || c == 'Ể' || c == 'Ễ' || c == 'Ệ' || c == 'Ì' || c == 'Í' || c == 'Ỉ' || c == 'Ĩ' || c == 'Ị' || c == 'Ò' || c == 'Ó' || c == 'Ỏ' || c == 'Õ' || c == 'Ọ' || c == 'Ô' || c == 'Ồ' || c == 'Ố' || c == 'Ổ' || c == 'Ỗ' || c == 'Ộ' || c == 'Ơ' || c == 'Ờ' || c == 'Ớ' || c == 'Ở' || c == 'Ỡ' || c == 'Ợ' || c == 'Ù' || c == 'Ú' || c == 'Ủ' || c == 'Ũ' || c == 'Ụ' || c == 'Ư' || c == 'Ừ' || c == 'Ứ' || c == 'Ử' || c == 'Ữ' || c == 'Ự' || c == 'Ỳ' || c == 'Ý' || c == 'Ỷ' || c == 'Ỹ' || c == 'Ỵ' || c == 'Đ'
  }

  /** `toLowerCase` on one character: ASCII capitals, and the Vietnamese capitals, whose
      small letters sit 0x20 further on in Latin-1 and one further on elsewhere. */
  function LowerChar(c: char): char {
    if 'A' <= c <= 'Z' then (c as int + 32) as char
    else if VietnameseCapital(c) then
      (if c < '\U{100}' then (c as int + 0x20) as char else (c as int + 1) as char)
    else c
  }

  function Lower(s: string): (r: string)
    ensures |r| == |s|
    ensures forall i :: 0 <= i < |s| ==> r[i] == LowerChar(s[i])
  {
    seq(|s|, i requires 0 <= i < |s| => LowerChar(s[i]))
  }

  // ----- split and join -----

  /** `s.split(sep)` for a one-character separator: always at least one piece. */
  function Split(s: string, sep: char): (r: seq<string>)
    ensures |r| >= 1
    ensures forall i :: 0 <= i < |r| ==> sep !in r[i]
    decreases |s|
  {
    if s == [] then [""]
    else
      var rest := Split(s[1..], sep);
      if s[0] == sep then [""] + rest
      else [[s[0]] + rest[0]] + rest[1..]
  }

  /** `xs.join(sep)`. */
  function Join(xs: seq<string>, sep: string): string
    decreases |xs|
  {
    if xs == [] then ""
    else if |xs| == 1 then xs[0]
    else xs[0] + sep + Join(xs[1..], sep)
  }

  /** Joining the pieces of a split gives the string back. */
  lemma {:induction false} JoinSplit(s: string, sep: char)
    ensures Join(Split(s, sep), [sep]) == s
    decreases |s|
  {
    if s != [] {
      JoinSplit(s[1..], sep);
      var rest := Split(s[1..], sep);
      if s[0] == sep {
        assert Join([""] + rest, [sep]) == "" + [sep] + Join(rest, [sep]);
      } else if |rest| == 1 {
        assert Split(s, sep) == [[s[0]] + rest[0]];
      } else {
        var r := Split(s, sep);
        assert r[1..] == rest[1..];
        assert Join(rest, [sep]) == rest[0] + [sep] + Join(rest[1..], [sep]);
      }
    }
  }

  /** Splitting around one separator splits each side. */
  lemma {:induction false} SplitConcat(a: string, b: string, sep: char)
    ensures Split(a + [sep] + b, sep) == Split(a, sep) + Split(b, sep)
    decreases |a|
  {
    var s := a + [sep] + b;
    if a == [] {
      assert s[1..] == b;
    } else {
      assert s[1..] == a[1..] + [sep] + b;
      SplitConcat(a[1..], b, sep);
    }
  }

  /** No piece of a split is longer than the string. */
  lemma {:induction false} SplitPieceLength(s: string, sep: char)
    ensures forall i :: 0 <= i < |Split(s, sep)| ==> |Split(s, sep)[i]| <= |s|
    decreases |s|
  {
    if s != [] {
      SplitPieceLength(s[1..], sep);
    }
  }

  lemma {:induction false} JoinSnoc(xs: seq<string>, x: string, sep: string)
    requires xs != []
    ensures Join(xs + [x], sep) == Join(xs, sep) + sep + x
    decreases |xs|
  {
    if |xs| == 1 {
      assert xs + [x] == [xs[0], x];
    } else {
      assert (xs + [x])[1..] == xs[1..] + [x];
      JoinSnoc(xs[1..], x, sep);
    }
  }

  /** Splitting a join of separator-free pieces gives the pieces back. */
  lemma {:induction false} SplitJoin(xs: seq<string>, sep: char)
    requires |xs| >= 1
    requires forall i :: 0 <= i < |xs| ==> sep !in xs[i]
    ensures Split(Join(xs, [sep]), sep) == xs
    decreases |xs|
  {
    if |xs| == 1 {
      SplitNoSep(xs[0], sep);
    } else {
      SplitJoin(xs[1..], sep);
      SplitAfterPiece(xs[0], Join(xs[1..], [sep]), sep);
      assert [xs[0]] + xs[1..] == xs;
    }
  }

  /** Three separator-free pieces joined by commas split back into the three. */
  lemma SplitThree(a: string, name: string, b: string)
    requires ',' !in a && ',' !in name && ',' !in b
    ensures Split(a + "," + name + "," + b, ',') == [a, name, b]
  {
    assert a + "," + name + "," + b == a + [','] + (name + [','] + b);
    SplitAfterPiece(a, name + [','] + b, ',');
    SplitAfterPiece(name, b, ',');
    SplitNoSep(b, ',');
  }

  lemma {:induction false} SplitNoSep(s: string, sep: char)
    requires sep !in s
    ensures Split(s, sep) == [s]
    decreases |s|
  {
    if s != [] {
      SplitNoSep(s[1..], sep);
      assert [s[0]] + s[1..] == s;
    }
  }

  lemma {:induction false} SplitAfterPiece(a: string, b: string, sep: char)
    requires sep !in a
    ensures Split(a + [sep] + b, sep) == [a] + Split(b, sep)
    decreases |a|
  {
    var s := a + [sep] + b;
    if a == [] {
      assert s[1..] == b;
    } else {
      assert s[1..] == a[1..] + [sep] + b;
      SplitAfterPiece(a[1..], b, sep);
      var rest := Split(s[1..], sep);
      assert rest[0] == a[1..] && rest[1..] == Split(b, sep);
      assert [a[0]] + a[1..] == a;
    }
  }

  /** `s.length` in JavaScript: UTF-16 code units, two for each character outside the
      Basic Multilingual Plane (a surrogate pair). */
  function Utf16Length(s: string): (n: nat)
    ensures |s| <= n <= 2 * |s|
    decreases |s|
  {
    if s == [] then 0
    else (if s[0] >= '\U{10000}' then 2 else 1) + Utf16Length(s[1..])
  }

  lemma {:induction false} Utf16LengthAppend(a: string, b: string)
    ensures Utf16Length(a + b) == Utf16Length(a) + Utf16Length(b)
    decreases |a|
  {
    if a != [] {
      assert (a + b)[0] == a[0] && (a + b)[1..] == a[1..] + b;
      Utf16LengthAppend(a[1..], b);
    } else {
      assert a + b == b;
    }
  }

  /** Within the Basic Multilingual Plane code units and characters agree. */
  lemma {:induction false} Utf16LengthOfBmp(s: string)
    requires forall i :: 0 <= i < |s| ==> s[i] < '\U{10000}'
    ensures Utf16Length(s) == |s|
    decreases |s|
  {
    if s != [] {
      Utf16LengthOfBmp(s[1..]);
    }
  }

  /** Outside it every character counts twice. */
  lemma {:induction false} Utf16LengthOfAstral(s: string)
    requires forall i :: 0 <= i < |s| ==> s[i] >= '\U{10000}'
    ensures Utf16Length(s) == 2 * |s|
    decreases |s|
  {
    if s != [] {
      Utf16LengthOfAstral(s[1..]);
    }
  }

  /** No piece of a split is longer, in code units, than the string split. */
  lemma {:induction false} SplitPieceUtf16Length(s: string, sep: char)
    ensures forall i :: 0 <= i < |Split(s, sep)| ==> Utf16Length(Split(s, sep)[i]) <= Utf16Length(s)
    decreases |s|
  {
    if s != [] {
      SplitPieceUtf16Length(s[1..], sep);
      var rest := Split(s[1..], sep);
      if s[0] != sep {
        Utf16LengthAppend([s[0]], rest[0]);
      }
    }
  }

  /** Total length of a list of strings. */
  function TotalLength(xs: seq<string>): nat
    decreases |xs|
  {
    if xs == [] then 0 else |xs[0]| + TotalLength(xs[1..])
  }

  lemma {:induction false} TotalLengthSplitAt(xs: seq<string>, k: nat)
    requires k <= |xs|
    ensures TotalLength(xs[..k]) + TotalLength(xs[k..]) == TotalLength(xs)
    decreases k
  {
    if k > 0 {
      TotalLengthSplitAt(xs[1..], k - 1);
      assert xs[1..][..k - 1] == xs[..k][1..];
      assert xs[1..][k - 1..] == xs[k..];
    }
  }

  lemma {:induction false} TotalLengthOfFilter(xs: seq<string>, p: string -> bool)
    ensures TotalLength(Filter(xs, p)) <= TotalLength(xs)
    decreases |xs|
  {
    if xs != [] {
      TotalLengthOfFilter(xs[1..], p);
      var head := if p(xs[0]) then [xs[0]] else [];
      TotalLengthAppend(head, Filter(xs[1..], p));
    }
  }

  lemma {:induction false} TotalLengthAppend(xs: seq<string>, ys: seq<string>)
    ensures TotalLength(xs + ys) == TotalLength(xs) + TotalLength(ys)
    decreases |xs|
  {
    if xs != [] {
      assert (xs + ys)[1..] == xs[1..] + ys;
      TotalLengthAppend(xs[1..], ys);
    } else {
      assert xs + ys == ys;
    }
  }

  lemma {:induction false} JoinLength(xs: seq<string>, sep: string)
    requires |xs| >= 1
    ensures |Join(xs, sep)| == TotalLength(xs) + (|xs| - 1) * |sep|
    decreases |xs|
  {
    if |xs| > 1 {
      JoinLength(xs[1..], sep);
    }
  }

  // ----- trim -----

  function TrimStart(s: string): (r: string)
    ensures |r| <= |s| && r == s[|s| - |r|..]
    ensures r == [] || !IsSpace(r[0])
    ensures IsBlank(s[..|s| - |r|])
    decreases |s|
  {
    if s != [] && IsSpace(s[0]) then
      var r := TrimStart(s[1..]);
      assert s[1..][|s| - 1 - |r|..] == s[|s| - |r|..];
      assert s[..|s| - |r|] == [s[0]] + s[1..][..|s| - 1 - |r|];
      r
    else s
  }

  function TrimEnd(s: string): (r: string)
    ensures |r| <= |s| && r == s[..|r|]
    ensures r == [] || !IsSpace(r[|r| - 1])
    ensures IsBlank(s[|r|..])
    decreases |s|
  {
    if s != [] && IsSpace(s[|s| - 1]) then
      var r := TrimEnd(s[..|s| - 1]);
      assert s[..|s| - 1][..|r|] == s[..|r|];
      assert s[|r|..] == s[..|s| - 1][|r|..] + [s[|s| - 1]];
      r
    else s
  }

  /** `s.trim()`: the middle of `s` with no white space at either end. */
  function Trim(s: string): (r: string)
    ensures r == [] || (!IsSpace(r[0]) && !IsSpace(r[|r| - 1]))
    ensures exists i :: OccursAt(s, r, i)
  {
    var t := TrimStart(s);
    var r := TrimEnd(t);
    assert OccursAt(s, r, |s| - |t|);
    r
  }

  /** `s.trim()` is empty exactly when `s` is all white space. */
  lemma {:induction false} TrimEmptyIffBlank(s: string)
    ensures Trim(s) == "" <==> IsBlank(s)
    decreases |s|
  {
    var t := TrimStart(s);
    if t == [] {
      assert s[..|s|] == s;
    } else {
      assert TrimEnd(t) != [] by { TrimEndKeepsFirst(t); }
    }
  }

  lemma {:induction false} TrimEndKeepsFirst(t: string)
    requires t != [] && !IsSpace(t[0])
    ensures TrimEnd(t) != []
    decreases |t|
  {
    if IsSpace(t[|t| - 1]) {
      TrimEndKeepsFirst(t[..|t| - 1]);
    }
  }

  lemma {:induction false} TrimIdempotent(s: string)
    ensures Trim(Trim(s)) == Trim(s)
  {
    var r := Trim(s);
    if r != [] {
      assert TrimStart(r) == r;
      assert TrimEnd(r) == r;
    }
  }

  // ----- includes -----

  /** `hay.includes(needle)`. */
  predicate Includes(hay: string, needle: string)
    decreases |hay|
  {
    needle <= hay || (hay != [] && Includes(hay[1..], needle))
  }

  lemma LowerConcat(a: string, b: string)
    ensures Lower(a + b) == Lower(a) + Lower(b)
  {
  }

  /** Lower-casing three words joined by spaces lower-cases each word. */
  lemma LowerSpaced(x: string, y: string, z: string)
    ensures Lower(x + " " + y + " " + z) == Lower(x) + " " + Lower(y) + " " + Lower(z)
  {
    LowerConcat(x + " " + y + " ", z);
    LowerConcat(x + " " + y, " ");
    LowerConcat(x + " ", y);
    LowerConcat(x, " ");
    assert Lower(" ") == " ";
  }

  /** A match inside either part of a concatenation is a match in the whole. */
  lemma IncludesInConcat(a: string, b: string, needle: string)
    requires Includes(a, needle) || Includes(b, needle)
    ensures Includes(a + b, needle)
  {
    IncludesIffOccurs(a, needle);
    IncludesIffOccurs(b, needle);
    IncludesIffOccurs(a + b, needle);
    if Includes(a, needle) {
      var i :| OccursAt(a, needle, i);
      assert (a + b)[i..i + |needle|] == a[i..i + |needle|];
      assert OccursAt(a + b, needle, i);
    } else {
      var i :| OccursAt(b, needle, i);
      assert (a + b)[|a| + i..|a| + i + |needle|] == b[i..i + |needle|];
      assert OccursAt(a + b, needle, |a| + i);
    }
  }

  /** A match in any of three space-separated parts is a match in their join. */
  lemma IncludesInSpaced(x: string, y: string, z: string, needle: string)
    requires Includes(x, needle) || Includes(y, needle) || Includes(z, needle)
    ensures Includes(x + " " + y + " " + z, needle)
  {
    var xy := x + " " + y;
    if Includes(x, needle) {
      IncludesInConcat(x, " ", needle);
      IncludesInConcat(x + " ", y, needle);
    } else if Includes(y, needle) {
      IncludesInConcat(x + " ", y, needle);
    }
    if !Includes(z, needle) {
      IncludesInConcat(xy, " ", needle);
    }
    IncludesInConcat(xy + " ", z, needle);
  }

  ghost predicate OccursAt(hay: string, needle: string, i: int) {
    0 <= i && i + |needle| <= |hay| && hay[i..i + |needle|] == needle
  }

  /** `includes` holds exactly when the needle occurs at some position. */
  lemma {:induction false} IncludesIffOccurs(hay: string, needle: string)
    ensures Includes(hay, needle) <==> exists i :: OccursAt(hay, needle, i)
    decreases |hay|
  {
    OccursAtStart(hay, needle);
    if hay != [] && !(needle <= hay) {
      IncludesIffOccurs(hay[1..], needle);
      if exists i :: OccursAt(hay[1..], needle, i) {
        var i :| OccursAt(hay[1..], needle, i);
        OccursShift(hay, needle, i + 1);
      }
      if exists i :: OccursAt(hay, needle, i) {
        var i :| OccursAt(hay, needle, i);
        OccursShift(hay, needle, i);
      }
    }
  }

  /** An occurrence at 0 is a prefix. */
  lemma OccursAtStart(hay: string, needle: string)
    ensures OccursAt(hay, needle, 0) <==> needle <= hay
  {
  }

  /** An occurrence at `i > 0` is one at `i - 1` in the tail. */
  lemma OccursShift(hay: string, needle: string, i: int)
    requires hay != [] && i > 0
    ensures OccursAt(hay, needle, i) <==> OccursAt(hay[1..], needle, i - 1)
  {
    if i + |needle| <= |hay| {
      assert hay[1..][i - 1..i - 1 + |needle|] == hay[i..i + |needle|];
    }
  }
}
