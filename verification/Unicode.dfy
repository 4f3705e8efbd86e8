/** Well-formed UTF-8, as section 4 of RFC 3629 defines it. */
module Unicode {
  import opened Words

  /** A byte that goes on with a character. */
  predicate Trailing(s: seq<byte>, i: nat) {
    i < |s| && 128 <= s[i] < 192
  }

  /** The bytes of the character `s` starts with, 0 if it is malformed: section 4 of RFC 3629. */
  function CharBytes(s: seq<byte>): (n: nat)
    requires s != []
    ensures n <= |s|
  {
    if s[0] < 128 then 1
    else if 194 <= s[0] < 224 && Trailing(s, 1) then 2
    else if 224 <= s[0] < 240 && Trailing(s, 1) && Trailing(s, 2)
            && (s[0] == 224 ==> s[1] >= 160) && (s[0] == 237 ==> s[1] < 160) then 3
    else if 240 <= s[0] < 245 && Trailing(s, 1) && Trailing(s, 2) && Trailing(s, 3)
            && (s[0] == 240 ==> s[1] >= 144) && (s[0] == 244 ==> s[1] < 144) then 4
    else 0
  }

  /** What bytes.decode accepts. */
  predicate Utf8(s: seq<byte>) {
    s == [] || (CharBytes(s) > 0 && Utf8(s[CharBytes(s)..]))
  }

  /** The characters of a well-formed text. */
  function Characters(s: seq<byte>): (cs: seq<seq<byte>>)
    requires Utf8(s)
  {
    if s == [] then [] else [s[..CharBytes(s)]] + Characters(s[CharBytes(s)..])
  }
}
