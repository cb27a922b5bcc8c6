/** Lower-casing of strings, as `String.prototype.toLowerCase` does on ASCII text. */
module Ascii {

  predicate IsUpper(c: char) {
    'A' <= c <= 'Z'
  }

  function LowerChar(c: char): (d: char)
    ensures !IsUpper(d)
    ensures IsUpper(c) ==> d as int == c as int + 32
    ensures !IsUpper(c) ==> d == c
  {
    if IsUpper(c) then (c as int + 32) as char else c
  }

  function ToLower(s: string): (r: string)
    ensures |r| == |s|
    ensures forall i :: 0 <= i < |s| ==> r[i] == LowerChar(s[i])
  {
    if s == [] then [] else [LowerChar(s[0])] + ToLower(s[1..])
  }

  /** Two characters are the same letter in either case, or the same character. */
  predicate SameIgnoringCase(c: char, d: char) {
    c == d || (IsUpper(c) && d as int == c as int + 32) || (IsUpper(d) && c as int == d as int + 32)
  }

  lemma LowerCharEqual(c: char, d: char)
    ensures LowerChar(c) == LowerChar(d) <==> SameIgnoringCase(c, d)
  {
    if IsUpper(c) && !IsUpper(d) {
      assert LowerChar(c) as int == c as int + 32;
    } else if !IsUpper(c) && IsUpper(d) {
      assert LowerChar(d) as int == d as int + 32;
    }
  }

  /** Comparing lower-cased strings is ASCII case-insensitive equality. */
  lemma ToLowerEqual(a: string, b: string)
    ensures ToLower(a) == ToLower(b)
      <==> |a| == |b| && forall i :: 0 <= i < |a| ==> SameIgnoringCase(a[i], b[i])
  {
    var la, lb := ToLower(a), ToLower(b);
    if la == lb {
      forall i | 0 <= i < |a| ensures SameIgnoringCase(a[i], b[i]) {
        assert la[i] == LowerChar(a[i]) && lb[i] == LowerChar(b[i]);
        assert la[i] == lb[i];
        LowerCharEqual(a[i], b[i]);
      }
    } else if |a| == |b| {
      var i :| 0 <= i < |a| && la[i] != lb[i];
      assert la[i] == LowerChar(a[i]) && lb[i] == LowerChar(b[i]);
      LowerCharEqual(a[i], b[i]);
    }
  }
}
