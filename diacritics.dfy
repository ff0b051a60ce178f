/** The Vietnamese diacritic folding of the report pages (`removeVietnameseDiacritics`):
    each precomposed Vietnamese letter of the table becomes its bare ASCII letter and
    every other character is left alone. */
module Diacritics {
  import opened Strings

  // The table, one predicate per replacement letter.
  predicate SmallA(c: char) {
    c == 'à' || c == 'á' || c == 'ả' || c == 'ã' || c == 'ạ' || c == 'ă' || c == 'ằ' || c == 'ắ' || c == 'ẳ' || c == 'ẵ' || c == 'ặ' || c == 'â' || c == 'ầ' || c == 'ấ' || c == 'ẩ' || c == 'ẫ' || c == 'ậ'
  }

  predicate SmallE(c: char) {
    c == 'è' || c == 'é' || c == 'ẻ' || c == 'ẽ' || c == 'ẹ' || c == 'ê' || c == 'ề' || c == 'ế' || c == 'ể' || c == 'ễ' || c == 'ệ'
  }

  predicate SmallI(c: char) {
    c == 'ì' || c == 'í' || c == 'ỉ' || c == 'ĩ' || c == 'ị'
  }

  predicate SmallO(c: char) {
    c == 'ò' || c == 'ó' || c == 'ỏ' || c == 'õ' || c == 'ọ' || c == 'ô' || c == 'ồ' || c == 'ố' || c == 'ổ' || c == 'ỗ' || c == 'ộ' || c == 'ơ' || c == 'ờ' || c == 'ớ' || c == 'ở' || c == 'ỡ' || c == 'ợ'
  }

  predicate SmallU(c: char) {
    c == 'ù' || c == 'ú' || c == 'ủ' || c == 'ũ' || c == 'ụ' || c == 'ư' || c == 'ừ' || c == 'ứ' || c == 'ử' || c == 'ữ' || c == 'ự'
  }

  predicate SmallY(c: char) {
    c == 'ỳ' || c == 'ý' || c == 'ỷ' || c == 'ỹ' || c == 'ỵ'
  }

  predicate SmallD(c: char) {
    c == 'đ'
  }

  predicate CapitalA(c: char) {
    c == 'À' || c == 'Á' || c == 'Ả' || c == 'Ã' || c == 'Ạ' || c == 'Ă' || c == 'Ằ' || c == 'Ắ' || c == 'Ẳ' || c == 'Ẵ' || c == 'Ặ' || c == 'Â' || c == 'Ầ' || c == 'Ấ' || c == 'Ẩ' || c == 'Ẫ' || c == 'Ậ'
  }

  predicate CapitalE(c: char) {
    c == 'È' || c == 'É' || c == 'Ẻ' || c == 'Ẽ' || c == 'Ẹ' || c == 'Ê' || c == 'Ề' || c == 'Ế' || c == 'Ể' || c == 'Ễ' || c == 'Ệ'
  }

  predicate CapitalI(c: char) {
    c == 'Ì' || c == 'Í' || c == 'Ỉ' || c == 'Ĩ' || c == 'Ị'
  }

  predicate CapitalO(c: char) {
    c == 'Ò' || c == 'Ó' || c == 'Ỏ' || c == 'Õ' || c == 'Ọ' || c == 'Ô' || c == 'Ồ' || c == 'Ố' || c == 'Ổ' || c == 'Ỗ' || c == 'Ộ' || c == 'Ơ' || c == 'Ờ' || c == 'Ớ' || c == 'Ở' || c == 'Ỡ' || c == 'Ợ'
  }

  predicate CapitalU(c: char) {
    c == 'Ù' || c == 'Ú' || c == 'Ủ' || c == 'Ũ' || c == 'Ụ' || c == 'Ư' || c == 'Ừ' || c == 'Ứ' || c == 'Ử' || c == 'Ữ' || c == 'Ự'
  }

  predicate CapitalY(c: char) {
    c == 'Ỳ' || c == 'Ý' || c == 'Ỷ' || c == 'Ỹ' || c == 'Ỵ'
  }

  predicate CapitalD(c: char) {
    c == 'Đ'
  }

  /** The characters of the table: exactly the character class of the `replace` call. */
  predicate InTable(c: char) {
    SmallA(c)
    || SmallE(c)
    || SmallI(c)
    || SmallO(c)
    || SmallU(c)
    || SmallY(c)
    || SmallD(c)
    || CapitalA(c)
    || CapitalE(c)
    || CapitalI(c)
    || CapitalO(c)
    || CapitalU(c)
    || CapitalY(c)
    || CapitalD(c)
  }

  predicate IsAsciiLetter(c: char) {
    'a' <= c <= 'z' || 'A' <= c <= 'Z'
  }

  function FoldChar(c: char): (r: char)
    ensures InTable(c) ==> IsAsciiLetter(r)
    ensures !InTable(c) ==> r == c
  {
    if SmallA(c) then 'a'
    else if SmallE(c) then 'e'
    else if SmallI(c) then 'i'
    else if SmallO(c) then 'o'
    else if SmallU(c) then 'u'
    else if SmallY(c) then 'y'
    else if SmallD(c) then 'd'
    else if CapitalA(c) then 'A'
    else if CapitalE(c) then 'E'
    else if CapitalI(c) then 'I'
    else if CapitalO(c) then 'O'
    else if CapitalU(c) then 'U'
    else if CapitalY(c) then 'Y'
    else if CapitalD(c) then 'D'
    else c
  }

  /** `removeVietnameseDiacritics(s)`: a character-by-character replacement. */
  function Fold(s: string): (r: string)
    ensures |r| == |s|
    ensures forall i :: 0 <= i < |s| ==> r[i] == FoldChar(s[i])
  {
    seq(|s|, i requires 0 <= i < |s| => FoldChar(s[i]))
  }

  /** No ASCII letter is in the table, so the folded characters are left alone. */
  lemma FoldCharIdempotent(c: char)
    ensures FoldChar(FoldChar(c)) == FoldChar(c)
  {
    if InTable(c) {
      assert IsAsciiLetter(FoldChar(c));
      AsciiNotInTable(FoldChar(c));
    }
  }

  lemma AsciiNotInTable(c: char)
    requires IsAsciiLetter(c)
    ensures !InTable(c)
  {
  }

  lemma FoldConcat(a: string, b: string)
    ensures Fold(a + b) == Fold(a) + Fold(b)
  {
  }

  /** Folding three words joined by spaces folds each word. */
  lemma FoldSpaced(x: string, y: string, z: string)
    ensures Fold(x + " " + y + " " + z) == Fold(x) + " " + Fold(y) + " " + Fold(z)
  {
    FoldConcat(x + " " + y + " ", z);
    FoldConcat(x + " " + y, " ");
    FoldConcat(x + " ", y);
    FoldConcat(x, " ");
    SpaceNotInTable();
    assert Fold(" ")[0] == ' ';
  }

  /** The space the texts are joined with is not in the table. */
  lemma SpaceNotInTable()
    ensures !InTable(' ')
  {
  }

  lemma FoldIdempotent(s: string)
    ensures Fold(Fold(s)) == Fold(s)
  {
    forall i | 0 <= i < |s|
      ensures Fold(Fold(s))[i] == Fold(s)[i]
    {
      FoldCharIdempotent(s[i]);
    }
  }

  /** Folding both sides keeps every match: a folded search only finds more. */
  lemma {:induction false} FoldKeepsIncludes(hay: string, needle: string)
    requires Includes(hay, needle)
    ensures Includes(Fold(hay), Fold(needle))
  {
    IncludesIffOccurs(hay, needle);
    var i :| OccursAt(hay, needle, i);
    assert Fold(hay)[i..i + |needle|] == Fold(needle);
    assert OccursAt(Fold(hay), Fold(needle), i);
    IncludesIffOccurs(Fold(hay), Fold(needle));
  }
}
