/**
 * `sanitize_filename`: every character that is not allowed in a file name on
 * common file systems is replaced by an underscore; all others are kept.
 */
module Filename {

  // The nine characters of the class in `re.sub(r'[\\/*?:"<>|]', '_', filename)`.
  predicate IsInvalid(c: char)
  {
    c == '\\' || c == '/' || c == '*' || c == '?' || c == ':' || c == '"' || c == '<' || c == '>' || c == '|'
  }

  /** Each invalid character becomes `_`; every other character is kept in place. */
  function Sanitize(name: string): (r: string)
    ensures |r| == |name|
    ensures forall i :: 0 <= i < |name| ==> r[i] == (if IsInvalid(name[i]) then '_' else name[i])
  {
    if name == [] then [] else [if IsInvalid(name[0]) then '_' else name[0]] + Sanitize(name[1..])
  }

  /** The result holds none of the nine characters. */
  lemma SanitizeValid(name: string)
    ensures forall i :: 0 <= i < |Sanitize(name)| ==> !IsInvalid(Sanitize(name)[i])
  {
  }

  /** A name with no invalid character is left as it is. */
  lemma {:induction false} SanitizeUnchanged(name: string)
    requires forall i :: 0 <= i < |name| ==> !IsInvalid(name[i])
    ensures Sanitize(name) == name
  {
    if name != [] {
      SanitizeUnchanged(name[1..]);
      assert [name[0]] + name[1..] == name;
    }
  }

  /** Sanitising twice is sanitising once. */
  lemma SanitizeIdempotent(name: string)
    ensures Sanitize(Sanitize(name)) == Sanitize(name)
  {
    SanitizeValid(name);
    SanitizeUnchanged(Sanitize(name));
  }

  /** Sanitising commutes with concatenation, character by character. */
  lemma SanitizeAppend(a: string, b: string)
    ensures Sanitize(a + b) == Sanitize(a) + Sanitize(b)
  {
    var l, r := Sanitize(a + b), Sanitize(a) + Sanitize(b);
    assert |l| == |r|;
    forall i | 0 <= i < |l|
      ensures l[i] == r[i]
    {
      if i < |a| {
        assert (a + b)[i] == a[i];
      } else {
        assert (a + b)[i] == b[i - |a|];
      }
    }
  }
}
