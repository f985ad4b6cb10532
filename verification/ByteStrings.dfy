// Byte strings, and the few std::string searches the program relies on.

module ByteStrings {

  datatype Option<+T> = None | Some(value: T)

  /** A C++ `char` seen as an unsigned byte. */
  type Byte = c: char | c as int < 256 witness 'a'

  type Bytes = seq<Byte>

  /** std::isspace in the C locale. */
  predicate IsSpace(c: Byte) {
    c == ' ' || 9 <= c as int <= 13
  }

  /** `s.find(c)`: the first index of c, or |s| where the program gets npos. */
  function Find(s: Bytes, c: Byte): (i: nat)
    ensures i <= |s| && c !in s[..i]
    ensures i < |s| ==> s[i] == c
    ensures i == |s| ==> c !in s
  {
    if s == [] || s[0] == c then 0 else 1 + Find(s[1..], c)
  }

  /** The first occurrence is found wherever the text around it comes from. */
  lemma FindInConcat(a: Bytes, c: Byte, b: Bytes)
    requires c !in a
    ensures Find(a + [c] + b, c) == |a|
  {
    var s := a + [c] + b;
    assert s[|a|] == c && s[..|a|] == a;
  }

  ghost predicate NoDup<T>(s: seq<T>) {
    forall i, j :: 0 <= i < j < |s| ==> s[i] != s[j]
  }

  // The program's longer texts are joined from short literals: the verifier unrolls every literal
  // into its characters, and its cost grows faster than the length.
  function Join3(a: Bytes, b: Bytes, c: Bytes): Bytes {
    a + b + c
  }
}
