/** Text by character: str.lower and str.upper on ASCII text, other characters staying as they are, and the order of strings. */
module Text {
  import opened Sequences

  function LowerChar(c: char): char {
    if 'A' <= c <= 'Z' then (c as int - 'A' as int + 'a' as int) as char else c
  }

  function UpperChar(c: char): char {
    if 'a' <= c <= 'z' then (c as int - 'a' as int + 'A' as int) as char else c
  }

  function Lower(s: string): string {
    if s == "" then "" else Lower(Init(s)) + [LowerChar(Last(s))]
  }

  function Upper(s: string): string {
    if s == "" then "" else Upper(Init(s)) + [UpperChar(Last(s))]
  }

  lemma {:induction false} LowerByCharacter(s: string)
    ensures |Lower(s)| == |s|
    ensures forall i :: 0 <= i < |s| ==>
              Lower(s)[i] == if 'A' <= s[i] <= 'Z' then (s[i] as int + 32) as char else s[i]
  {
    if s != "" {
      LowerByCharacter(Init(s));
    }
  }

  lemma {:induction false} UpperByCharacter(s: string)
    ensures |Upper(s)| == |s|
    ensures forall i :: 0 <= i < |s| ==>
              Upper(s)[i] == if 'a' <= s[i] <= 'z' then (s[i] as int - 32) as char else s[i]
  {
    if s != "" {
      UpperByCharacter(Init(s));
    }
  }

  /** The order of strings by character code. */
  predicate Before(a: string, b: string) {
    if b == "" then false
    else if a == "" then true
    else if a[0] != b[0] then a[0] < b[0] else Before(a[1..], b[1..])
  }

  lemma {:induction false} BeforeIsTotal(a: string, b: string)
    ensures a == b ==> !Before(a, b)
    ensures a != b ==> (Before(a, b) <==> !Before(b, a))
  {
    if a != "" && b != "" && a[0] == b[0] {
      BeforeIsTotal(a[1..], b[1..]);
      assert a == [a[0]] + a[1..] && b == [b[0]] + b[1..];
    }
  }

  lemma {:induction false} BeforeIsTransitive(a: string, b: string, c: string)
    requires Before(a, b) && Before(b, c)
    ensures Before(a, c)
  {
    if a != "" && a[0] == b[0] == c[0] {
      BeforeIsTransitive(a[1..], b[1..], c[1..]);
    }
  }
}
