/** Small helpers shared by both revisions of the pass: an Option type, the two notions
    of "white space" the configuration readers use, the structural reports both loaders
    print, and a declarative reading of a section of lines. */
module Common {

  datatype Option<+T> = None | Some(value: T)

  /** A line made only of ' ' characters (the empty line included). This is the test
      `line.find_first_not_of(' ') == npos`: a tab or a carriage return makes a line
      non-blank. */
  predicate IsBlank(s: string)
  {
    forall i :: 0 <= i < |s| ==> s[i] == ' '
  }

  /** The characters the ECMAScript class `\s` matches in the C locale. */
  predicate IsSpace(c: char)
  {
    c == ' ' || c == '\t' || c == '\n' || c == '\U{B}' || c == '\U{C}' || c == '\r'
  }

  /** The string with every `\s` character deleted. */
  function RemoveSpaces(s: string): (r: string)
    ensures |r| <= |s|
  {
    if s == [] then []
    else if IsSpace(s[0]) then RemoveSpaces(s[1..])
    else [s[0]] + RemoveSpaces(s[1..])
  }

  lemma {:induction false} RemoveSpacesAppend(a: string, b: string)
    ensures RemoveSpaces(a + b) == RemoveSpaces(a) + RemoveSpaces(b)
  {
    if a == [] {
      assert a + b == b;
    } else {
      assert (a + b)[1..] == a[1..] + b;
      RemoveSpacesAppend(a[1..], b);
    }
  }

  lemma {:induction false} RemoveSpacesKeeps(s: string, c: char)
    requires !IsSpace(c)
    ensures c in RemoveSpaces(s) <==> c in s
  {
    if s != [] {
      RemoveSpacesKeeps(s[1..], c);
      assert s == [s[0]] + s[1..];
    }
  }

  /** Reports printed on the diagnostic stream that concern the file's structure. */
  datatype Diagnostic =
    | UnclosedSection(endToken: string)   // end of file inside a section
    | WrongSyntax                         // a top-level line that opens no section

  /** The lines that are not space-only, in order. */
  function NonBlank(ls: seq<string>): (r: seq<string>)
    ensures |r| <= |ls|
    ensures forall i :: 0 <= i < |r| ==> !IsBlank(r[i]) && r[i] in ls
  {
    if ls == [] then []
    else if IsBlank(ls[0]) then NonBlank(ls[1..])
    else [ls[0]] + NonBlank(ls[1..])
  }

  /** `e` is where the section that starts at `pos` ends: the first line at or after
      `pos` equal to the token, or the end of the file. */
  predicate SectionEndsAt(lines: seq<string>, pos: nat, token: string, e: nat)
  {
    pos <= e <= |lines|
    && (e < |lines| ==> lines[e] == token)
    && forall j :: pos <= j < e ==> lines[j] != token
  }

  /** Concatenation regrouped. A proof step of the wildcard lemmas, kept apart from
      their contexts, where the solver finds it expensive. */
  lemma ConcatAssoc<T>(a: seq<T>, b: seq<T>, c: seq<T>)
    ensures a + b + c == a + (b + c)
  {
  }

  lemma NonBlankCons(ls: seq<string>, pos: nat)
    requires pos < |ls|
    ensures NonBlank(ls[pos..]) == if IsBlank(ls[pos]) then NonBlank(ls[pos + 1..])
                                   else [ls[pos]] + NonBlank(ls[pos + 1..])
  {
    assert ls[pos..][1..] == ls[pos + 1..];
  }
}
