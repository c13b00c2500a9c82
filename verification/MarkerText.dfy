/** The texts of markers: decimal numbers, and the scan index that a queued scan
    marker carries in front of a bar. */
module MarkerText {

  function Digit(d: nat): char
    requires d < 10
  {
    '0' + d as char
  }

  /** `ss << n`. */
  function Decimal(n: nat): (s: string)
    ensures IsNumber(s)
  {
    if n < 10 then [Digit(n)] else Decimal(n / 10) + [Digit(n % 10)]
  }

  predicate AllDigits(s: string) {
    forall i :: 0 <= i < |s| ==> '0' <= s[i] <= '9'
  }

  predicate IsNumber(s: string) {
    s != [] && AllDigits(s)
  }

  /** `lexical_cast` of a number. */
  function Parse(s: string): nat
    requires AllDigits(s)
  {
    if s == [] then 0 else 10 * Parse(s[..|s| - 1]) + (s[|s| - 1] as nat - '0' as nat)
  }

  lemma {:induction false} ParseDecimal(n: nat)
    ensures Parse(Decimal(n)) == n
  {
    if n < 10 {
      assert [Digit(n)][..0] == [];
    } else {
      ParseDecimal(n / 10);
      assert (Decimal(n / 10) + [Digit(n % 10)])[..|Decimal(n / 10)|] == Decimal(n / 10);
    }
  }

  /** The first bar, if any. */
  function FindBar(s: string): (k: nat)
    ensures k <= |s| && (k < |s| ==> s[k] == '|')
  {
    if s == [] || s[0] == '|' then 0 else 1 + FindBar(s[1..])
  }

  lemma {:induction false} FindBarAfter(number: string, rest: string)
    requires forall i :: 0 <= i < |number| ==> number[i] != '|'
    ensures FindBar(number + "|" + rest) == |number|
  {
    if number != [] {
      assert (number + "|" + rest)[1..] == number[1..] + "|" + rest;
      FindBarAfter(number[1..], rest);
    }
  }

  /** What a queued scan marker holds. */
  function Tagged(scanIndex: nat, text: string): string {
    Decimal(scanIndex) + "|" + text
  }

  /** Takes the index off again; a text without one keeps the index in force. The cast
      of a prefix that is not a number, which the source would not survive, never arises
      from a tagged text. */
  function Untag(s: string, current: nat): (nat, string) {
    var k := FindBar(s);
    if k == |s| then (current, s)
    else if !IsNumber(s[..k]) then (current, s)
    else (Parse(s[..k]), s[k + 1..])
  }

  /** A tagged text comes back whole, bars and all. */
  lemma UntagTagged(scanIndex: nat, text: string, current: nat)
    ensures Untag(Tagged(scanIndex, text), current) == (scanIndex, text)
  {
    var number := Decimal(scanIndex);
    FindBarAfter(number, text);
    ParseDecimal(scanIndex);
    assert Tagged(scanIndex, text)[..|number|] == number;
    assert Tagged(scanIndex, text)[|number| + 1..] == text;
  }

  const MAX_COMMENT := 65535

  /** What is sent of a comment: all of it, or as much as its 16-bit length can say. */
  predicate SentOf(comment: string, sent: string) {
    if |comment| < 0x1_0000 then sent == comment else |sent| == 0xffff && sent <= comment
  }

  /** At most 65535 characters of a comment are sent. */
  function Clip(s: string): (r: string)
    ensures SentOf(s, r)
  {
    if |s| > MAX_COMMENT then s[..MAX_COMMENT] else s
  }
}
