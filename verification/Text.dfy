/** Searching a string for a character. */
module Text {
  predicate Contains(s: string, c: char) { exists i :: 0 <= i < |s| && s[i] == c }

  /** The first index of c, or |s|. */
  function IndexOf(s: string, c: char): (i: nat)
    ensures i <= |s|
  {
    if s == "" || s[0] == c then 0 else 1 + IndexOf(s[1..], c)
  }

  lemma {:induction false} IndexOfIs(s: string, c: char)
    ensures IndexOf(s, c) < |s| ==> s[IndexOf(s, c)] == c
    ensures forall j :: 0 <= j < IndexOf(s, c) ==> s[j] != c
  {
    if s != "" && s[0] != c {
      IndexOfIs(s[1..], c);
      forall j | 0 <= j < IndexOf(s, c) ensures s[j] != c {
        assert j > 0 ==> s[j] == s[1..][j - 1];
      }
    }
  }

  /** The text before the first c, and the rest from c on. */
  function Break(s: string, c: char): (string, string) {
    var i := IndexOf(s, c);
    (s[..i], s[i..])
  }

  lemma BreakIs(s: string, c: char)
    ensures var (a, b) := Break(s, c);
            s == a + b && (b != "" ==> b[0] == c) && !Contains(a, c)
  {
    IndexOfIs(s, c);
  }
}
