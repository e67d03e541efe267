/** Column-name normalisation of the loaded sales table (app.py:26-27):
    every header is lower-cased (`str.lower`) and then every space in it is
    replaced by an underscore (`str.replace(' ', '_')`). */
module Columns {

  predicate IsUpperAscii(c: char) {
    'A' <= c <= 'Z'
  }

  /** `str.lower` on one character, for the ASCII letters. */
  function LowerChar(c: char): (r: char)
    ensures !IsUpperAscii(r)
    ensures IsUpperAscii(c) ==> r as int == c as int + 32
    ensures !IsUpperAscii(c) ==> r == c
  {
    if IsUpperAscii(c) then (c as int + 32) as char else c
  }

  /** `str.lower` on a whole header. */
  function Lower(s: string): (r: string)
    ensures |r| == |s|
    ensures forall i :: 0 <= i < |s| ==> r[i] == LowerChar(s[i])
  {
    if |s| == 0 then [] else [LowerChar(s[0])] + Lower(s[1..])
  }

  /** `str.replace(' ', '_')`: every space becomes an underscore and every
      other character is kept. */
  function ReplaceSpaces(s: string): (r: string)
    ensures |r| == |s|
    ensures forall i :: 0 <= i < |s| ==> r[i] == (if s[i] == ' ' then '_' else s[i])
  {
    if |s| == 0 then [] else [if s[0] == ' ' then '_' else s[0]] + ReplaceSpaces(s[1..])
  }

  /** The normalised header: no spaces and no upper-case ASCII letter left,
      same length, and each character the lower-case of the original, with a
      space turned into an underscore. */
  function NormalizeColumn(s: string): (r: string)
    ensures |r| == |s|
    ensures forall i :: 0 <= i < |r| ==> r[i] != ' ' && !IsUpperAscii(r[i])
    ensures forall i :: 0 <= i < |s| ==>
      r[i] == (if s[i] == ' ' then '_' else LowerChar(s[i]))
  {
    ReplaceSpaces(Lower(s))
  }

  /** Normalising an already normalised header changes nothing. */
  lemma {:induction false} NormalizeIdempotent(s: string)
    ensures NormalizeColumn(NormalizeColumn(s)) == NormalizeColumn(s)
  {
    var r := NormalizeColumn(s);
    var rr := NormalizeColumn(r);
    forall i | 0 <= i < |r|
      ensures rr[i] == r[i]
    {
      assert r[i] != ' ' && !IsUpperAscii(r[i]);
    }
  }

  /** Two characters that agree up to ASCII case and up to space versus
      underscore. */
  predicate SameHeaderChar(a: char, b: char) {
    (if a == ' ' then '_' else LowerChar(a)) == (if b == ' ' then '_' else LowerChar(b))
  }

  /** Headers that differ only in ASCII case and in spaces versus underscores
      name the same column after loading, and headers that differ otherwise
      stay different. */
  lemma {:induction false} NormalizeIdentifies(s: string, t: string)
    requires |s| == |t|
    ensures NormalizeColumn(s) == NormalizeColumn(t) <==>
      forall i :: 0 <= i < |s| ==> SameHeaderChar(s[i], t[i])
  {
    var rs, rt := NormalizeColumn(s), NormalizeColumn(t);
    if forall i :: 0 <= i < |s| ==> SameHeaderChar(s[i], t[i]) {
      assert forall i :: 0 <= i < |s| ==> rs[i] == rt[i];
    }
    if rs == rt {
      forall i | 0 <= i < |s|
        ensures SameHeaderChar(s[i], t[i])
      {
        assert rs[i] == rt[i];
      }
    }
  }

  /** The header row after `df_sales.columns = ...` (app.py:26-27): each
      header normalised in place, the order of the columns kept. */
  function NormalizeHeaders(headers: seq<string>): (r: seq<string>)
    ensures |r| == |headers|
    ensures forall i :: 0 <= i < |r| ==> |r[i]| == |headers[i]| && ' ' !in r[i]
    ensures forall i, j :: 0 <= i < |r| && 0 <= j < |r[i]| ==> !IsUpperAscii(r[i][j])
    ensures forall i, j :: 0 <= i < |r| && 0 <= j < |headers[i]| ==>
      r[i][j] == (if headers[i][j] == ' ' then '_' else LowerChar(headers[i][j]))
  {
    seq(|headers|, i requires 0 <= i < |headers| => NormalizeColumn(headers[i]))
  }

  /** Loading normalises the header row once; doing it again would change
      nothing. */
  lemma NormalizeHeadersIdempotent(headers: seq<string>)
    ensures NormalizeHeaders(NormalizeHeaders(headers)) == NormalizeHeaders(headers)
  {
    var r := NormalizeHeaders(headers);
    forall i | 0 <= i < |r|
      ensures NormalizeColumn(r[i]) == r[i]
    {
      NormalizeIdempotent(headers[i]);
    }
  }
}
