/** String.prototype.trim() and the tests built on it. */
module Text {
  /** The white space and line terminators that trim() strips. */
  predicate White(c: char) {
    var n := c as int;
    || 9 <= n <= 13 || n == 0x20 || n == 0xA0 || n == 0x1680 || 0x2000 <= n <= 0x200A
    || n == 0x2028 || n == 0x2029 || n == 0x202F || n == 0x205F || n == 0x3000 || n == 0xFEFF
  }

  /** `!s.trim()` */
  predicate Blank(s: string) {
    forall c <- s :: White(c)
  }

  function TrimStart(s: string): string {
    if s != "" && White(s[0]) then TrimStart(s[1..]) else s
  }

  function TrimEnd(s: string): string {
    if s != "" && White(s[|s| - 1]) then TrimEnd(s[..|s| - 1]) else s
  }

  function Trim(s: string): string {
    TrimEnd(TrimStart(s))
  }

  predicate Trimmed(s: string) {
    s != "" ==> !White(s[0]) && !White(s[|s| - 1])
  }

  lemma {:induction false} TrimStartFacts(s: string)
    ensures Blank(s) <==> TrimStart(s) == ""
    ensures TrimStart(s) != "" ==> !White(TrimStart(s)[0])
  {
    if s != "" {
      assert s == [s[0]] + s[1..];
      TrimStartFacts(s[1..]);
    }
  }

  lemma {:induction false} TrimEndFacts(s: string)
    ensures s != "" && !White(s[0]) ==> TrimEnd(s) != "" && TrimEnd(s)[0] == s[0]
    ensures TrimEnd(s) != "" ==> !White(TrimEnd(s)[|TrimEnd(s)| - 1])
  {
    if s != "" {
      TrimEndFacts(s[..|s| - 1]);
    }
  }

  /** Nothing is left of a blank string; otherwise both ends are not white space. */
  lemma TrimFacts(s: string)
    ensures Blank(s) <==> Trim(s) == ""
    ensures Trimmed(Trim(s))
  {
    TrimStartFacts(s);
    TrimEndFacts(TrimStart(s));
  }

  /** What is taken off is white space, and what is left stands in the middle of it. */
  lemma TrimTakesWhite(s: string) returns (before: string, after: string)
    ensures s == before + Trim(s) + after && Blank(before) && Blank(after)
  {
    before := StartTaken(s);
    after := EndTaken(TrimStart(s));
  }

  lemma {:induction false} StartTaken(s: string) returns (before: string)
    ensures s == before + TrimStart(s) && Blank(before)
  {
    if s != "" && White(s[0]) {
      before := StartTaken(s[1..]);
      before := [s[0]] + before;
    } else {
      before := "";
    }
  }

  lemma {:induction false} EndTaken(s: string) returns (after: string)
    ensures s == TrimEnd(s) + after && Blank(after)
  {
    if s != "" && White(s[|s| - 1]) {
      after := EndTaken(s[..|s| - 1]);
      after := after + [s[|s| - 1]];
    } else {
      after := "";
    }
  }

  function Joined(parts: seq<string>): string {
    if parts == [] then "" else Joined(parts[..|parts| - 1]) + parts[|parts| - 1]
  }

  // ---- Python's str.strip() -----------------------------------------------

  /** The characters str.strip() strips: not U+FEFF, but the separators 1C to 1F and 85. */
  predicate PyWhite(c: char) {
    var n := c as int;
    (White(c) && n != 0xFEFF) || 0x1C <= n <= 0x1F || n == 0x85
  }

  /** `not s.strip()` */
  predicate PyBlank(s: string) {
    forall c <- s :: PyWhite(c)
  }

  /** A string that is blank for the backend only holds a byte order mark. */
  lemma BlankForOneOnly(s: string)
    requires Blank(s) && !PyBlank(s)
    ensures exists c :: c in s && c as int == 0xFEFF
  {
  }
}
