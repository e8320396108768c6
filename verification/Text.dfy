/** The text helpers the telemetry and subscription code calls, on ASCII letters and spaces. */
module Text {

  predicate IsSpace(c: char) {
    c == ' ' || c == '\t' || c == '\n' || c == '\U{0B}' || c == '\U{0C}' || c == '\r'
  }

  function TrimLeft(s: string): string {
    if s != [] && IsSpace(s[0]) then TrimLeft(s[1..]) else s
  }

  function TrimSpace(s: string): string {
    var left := TrimLeft(s);
    TrimRight(left)
  }

  function TrimRight(s: string): string {
    if s != [] && IsSpace(s[|s| - 1]) then TrimRight(s[..|s| - 1]) else s
  }

  /** What trimming leaves: the part between the first and the last character that is no space. */
  lemma {:induction false} TrimExactly(s: string) returns (i: nat, j: nat)
    ensures i <= j <= |s| && TrimSpace(s) == s[i..j]
    ensures forall k :: 0 <= k < i || j <= k < |s| ==> s[k] in " \t\n\U{0B}\U{0C}\r"
    ensures i < j ==> s[i] !in " \t\n\U{0B}\U{0C}\r" && s[j - 1] !in " \t\n\U{0B}\U{0C}\r"
  {
    i := TrimLeftExactly(s);
    var k := TrimRightExactly(s[i..]);
    j := i + k;
    assert forall c: char :: IsSpace(c) <==> c in " \t\n\U{0B}\U{0C}\r";
  }

  lemma {:induction false} TrimLeftExactly(s: string) returns (i: nat)
    ensures i <= |s| && TrimLeft(s) == s[i..]
    ensures forall k :: 0 <= k < i ==> IsSpace(s[k])
    ensures i < |s| ==> !IsSpace(s[i])
  {
    i := 0;
    if s != [] && IsSpace(s[0]) {
      i := TrimLeftExactly(s[1..]);
      i := i + 1;
    }
  }

  lemma {:induction false} TrimRightExactly(s: string) returns (j: nat)
    ensures j <= |s| && TrimRight(s) == s[..j]
    ensures forall k :: j <= k < |s| ==> IsSpace(s[k])
    ensures j > 0 ==> !IsSpace(s[j - 1])
  {
    j := |s|;
    if s != [] && IsSpace(s[|s| - 1]) {
      j := TrimRightExactly(s[..|s| - 1]);
    }
  }

  /** `strings.TrimSpace(s) == ""`. */
  predicate Blank(s: string) {
    TrimSpace(s) == ""
  }

  function LowerChar(c: char): char {
    if 'A' <= c <= 'Z' then c - 'A' + 'a' else c
  }

  function ToLower(s: string): string {
    seq(|s|, i requires 0 <= i < |s| => LowerChar(s[i]))
  }

  /** Each of the 26 capitals becomes its small letter, and every other character stays. */
  lemma LowerExactly(s: string, i: nat)
    requires i < |s|
    ensures var capitals, letters := "ABCDEFGHIJKLMNOPQRSTUVWXYZ", "abcdefghijklmnopqrstuvwxyz";
      && |ToLower(s)| == |s|
      && (forall k :: 0 <= k < 26 && s[i] == capitals[k] ==> ToLower(s)[i] == letters[k])
      && (s[i] !in capitals ==> ToLower(s)[i] == s[i])
  {
    var capitals := "ABCDEFGHIJKLMNOPQRSTUVWXYZ";
    if 'A' <= s[i] <= 'Z' {
      assert capitals[s[i] as int - 'A' as int] == s[i];
    }
  }
}
