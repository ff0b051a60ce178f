/** The keyword tokenizer shared by the report pages' quick filter and the results
    posts route: `keyword.toLowerCase().split('&').map(k => k.trim()).filter(k => k)`. */
module Keywords {
  import opened Seqs
  import opened Strings

  predicate NonEmpty(s: string) {
    s != ""
  }

  /** `pieces.map(k => k.trim())`. */
  function TrimAll(pieces: seq<string>): seq<string> {
    Map(pieces, Trim)
  }

  /** A token as the tokenizer leaves it: no separator, nothing left to trim. */
  predicate Clean(t: string) {
    '&' !in t && Trim(t) == t
  }

  function Tokenize(keyword: string): (tokens: seq<string>)
    ensures forall i :: 0 <= i < |tokens| ==>
      tokens[i] != "" && '&' !in tokens[i] && Trim(tokens[i]) == tokens[i]
  {
    var trimmed := TrimAll(Split(Lower(keyword), '&'));
    TrimmedAreClean(Split(Lower(keyword), '&'));
    FilterMembers(trimmed, NonEmpty);
    Filter(trimmed, NonEmpty)
  }

  /** Trimming pieces without a separator leaves clean tokens. */
  lemma TrimmedAreClean(pieces: seq<string>)
    requires forall i :: 0 <= i < |pieces| ==> '&' !in pieces[i]
    ensures forall t :: t in TrimAll(pieces) ==> Clean(t)
  {
    TrimmedPiecesHaveNoSeparator(pieces, '&');
    TrimAllIdempotent(pieces);
    var trimmed := TrimAll(pieces);
    forall t | t in trimmed
      ensures Clean(t)
    {
      var j :| 0 <= j < |trimmed| && trimmed[j] == t;
    }
  }

  lemma TrimmedPiecesHaveNoSeparator(pieces: seq<string>, sep: char)
    requires forall i :: 0 <= i < |pieces| ==> sep !in pieces[i]
    ensures forall i :: 0 <= i < |pieces| ==> sep !in Trim(pieces[i])
  {
    forall i | 0 <= i < |pieces|
      ensures sep !in Trim(pieces[i])
    {
      var r := Trim(pieces[i]);
      var k :| OccursAt(pieces[i], r, k);
    }
  }

  lemma TrimAllIdempotent(pieces: seq<string>)
    ensures forall i :: 0 <= i < |pieces| ==> Trim(Trim(pieces[i])) == Trim(pieces[i])
  {
    forall i | 0 <= i < |pieces| {
      TrimIdempotent(pieces[i]);
    }
  }

  predicate SpaceOrSeparator(s: string) {
    forall i :: 0 <= i < |s| ==> IsSpace(s[i]) || s[i] == '&'
  }

  lemma LowerOfSpaceOrSeparator(s: string)
    requires SpaceOrSeparator(s)
    ensures Lower(s) == s
  {
    forall i | 0 <= i < |s|
      ensures LowerChar(s[i]) == s[i]
    {
      if IsSpace(s[i]) {
        SpaceIsNotCapital(s[i]);
      }
    }
  }

  lemma SpaceIsNotCapital(c: char)
    requires IsSpace(c)
    ensures !VietnameseCapital(c)
  {
  }

  /** A keyword made only of white space and '&' (such as "", "  " or "&")
      yields no token. */
  lemma {:induction false} TokenizeNoWords(keyword: string)
    requires SpaceOrSeparator(keyword)
    ensures Tokenize(keyword) == []
  {
    LowerOfSpaceOrSeparator(keyword);
    var pieces := Split(keyword, '&');
    BlankPieces(keyword);
    var trimmed := TrimAll(pieces);
    forall i | 0 <= i < |trimmed|
      ensures !NonEmpty(trimmed[i])
    {
      TrimEmptyIffBlank(pieces[i]);
    }
    FilterKeepsNone(trimmed, NonEmpty);
    assert Tokenize(keyword) == Filter(trimmed, NonEmpty);
  }

  lemma {:induction false} BlankPieces(s: string)
    requires SpaceOrSeparator(s)
    ensures forall i :: 0 <= i < |Split(s, '&')| ==> IsBlank(Split(s, '&')[i])
    decreases |s|
  {
    if s != [] {
      BlankPieces(s[1..]);
    }
  }

  lemma TokenizeSeparatorOnly()
    ensures Tokenize("&") == []
  {
    TokenizeNoWords("&");
  }

  /** Joining two keyword strings with `&` tokenizes to the tokens of both, in order. */
  lemma TokenizeConcat(k1: string, k2: string)
    ensures Tokenize(k1 + "&" + k2) == Tokenize(k1) + Tokenize(k2)
  {
    var l1, l2 := Lower(k1), Lower(k2);
    LowerAround(k1, k2);
    SplitConcat(l1, l2, '&');
    var p1, p2 := Split(l1, '&'), Split(l2, '&');
    TrimAllAppend(p1, p2);
    FilterAppend(TrimAll(p1), TrimAll(p2), NonEmpty);
  }

  lemma LowerAround(k1: string, k2: string)
    ensures Lower(k1 + "&" + k2) == Lower(k1) + ['&'] + Lower(k2)
  {
    LowerConcat(k1 + "&", k2);
    LowerConcat(k1, "&");
  }

  lemma TrimAllAppend(p1: seq<string>, p2: seq<string>)
    ensures TrimAll(p1 + p2) == TrimAll(p1) + TrimAll(p2)
  {
    MapAppend(p1, p2, Trim);
  }
}
