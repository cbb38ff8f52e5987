/** A command line: a verb, a space and a parameter. */
module CommandLines {

  function Upper(c: char): char {
    if 'a' <= c <= 'z' then c - 'a' + 'A' else c
  }

  function UpperText(s: string): (t: string)
    ensures |t| == |s| && forall i | 0 <= i < |s| :: t[i] == Upper(s[i])
  {
    seq(|s|, i requires 0 <= i < |s| => Upper(s[i]))
  }

  /** The position of the first space, or the length when there is none. */
  function FirstSpace(s: string): (i: nat)
    ensures i <= |s| && (forall k | 0 <= k < i :: s[k] != ' ') && (i < |s| ==> s[i] == ' ')
  {
    if s == "" || s[0] == ' ' then 0 else 1 + FirstSpace(s[1..])
  }

  /** The word before the first space and the text behind it. */
  function SplitCommand(command: string): (string, string) {
    var i := FirstSpace(command);
    if i == |command| then (command, "") else (command[..i], command[i + 1..])
  }

  /** A QUIT, in letters of any case. */
  predicate IsQuit(line: string) {
    UpperText(SplitCommand(line).0) == "QUIT"
  }

  /** Splitting undoes writing a verb, a space and a parameter, for any verb without a space. */
  lemma SplitUndoesJoin(verb: string, parameter: string)
    requires ' ' !in verb
    ensures SplitCommand(verb + " " + parameter) == (verb, parameter)
    ensures SplitCommand(verb) == (verb, "")
  {
    var line := verb + " " + parameter;
    assert line[|verb|] == ' ' && line[..|verb|] == verb && line[|verb| + 1..] == parameter;
    assert FirstSpace(line) == |verb| by {
      assert forall k | 0 <= k < |verb| :: line[k] == verb[k];
    }
    assert FirstSpace(verb) == |verb|;
  }
}
