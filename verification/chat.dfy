/** The user half of the chat widget: sending appends the typed text as a
    user message and clears the input, unless the text is blank. */
module Chat {

  datatype Role = UserRole | AssistantRole
  datatype Message = Message(role: Role, content: string)

  /** The conversation on mount: one greeting from the assistant. */
  const Greeting := [Message(AssistantRole,
    "Olá! Sou seu assistente de casamento com IA. Como posso ajudar você hoje?")]

  /** The characters `String.prototype.trim` strips: the white space and line
      terminator code points of ECMAScript (section 12.2 and 12.3 of
      ECMA-262), including every space separator of Unicode category Zs. */
  predicate IsSpace(c: char)
  {
    || c == '\t' || c == '\U{B}' || c == '\U{C}' || c == ' ' || c == '\U{A0}' || c == '\U{FEFF}'
    || c == '\n' || c == '\r' || c == '\U{2028}' || c == '\U{2029}'
    || c == '\U{1680}' || ('\U{2000}' <= c <= '\U{200A}') || c == '\U{202F}' || c == '\U{205F}'
    || c == '\U{3000}'
  }

  predicate Blank(s: string)
  {
    forall i :: 0 <= i < |s| ==> IsSpace(s[i])
  }

  /** Strips leading white space: what is left is a suffix of the input that
      is empty or starts with a non-space, and everything dropped was space. */
  function TrimStart(s: string): (r: string)
    ensures |r| <= |s| && r == s[|s| - |r|..]
    ensures |r| > 0 ==> !IsSpace(r[0])
    ensures forall i :: 0 <= i < |s| - |r| ==> IsSpace(s[i])
  {
    if |s| > 0 && IsSpace(s[0]) then
      var r := TrimStart(s[1..]);
      assert forall i :: 1 <= i < |s| ==> s[i] == s[1..][i - 1];
      r
    else s
  }

  /** Strips trailing white space, symmetrically. */
  function TrimEnd(s: string): (r: string)
    ensures |r| <= |s| && r == s[..|r|]
    ensures |r| > 0 ==> !IsSpace(r[|r| - 1])
    ensures forall i :: |r| <= i < |s| ==> IsSpace(s[i])
  {
    if |s| > 0 && IsSpace(s[|s| - 1]) then
      var r := TrimEnd(s[..|s| - 1]);
      assert forall i :: 0 <= i < |s| - 1 ==> s[i] == s[..|s| - 1][i];
      r
    else s
  }

  /** `String.prototype.trim`: both ends stripped. What is left is no longer
      than the input, is the slice of it left once a run of leading spaces
      and a run of trailing spaces are dropped, starts and ends with a
      non-space, and is empty exactly when the input is blank. */
  function Trim(s: string): (r: string)
    ensures |r| <= |s|
    ensures var k := |s| - |TrimStart(s)|;
      k + |r| <= |s| && SliceAt(r, s, k) && SpaceRun(s, 0, k) && SpaceRun(s, k + |r|, |s|)
    ensures |r| > 0 ==> !IsSpace(r[0]) && !IsSpace(r[|r| - 1])
    ensures r == "" <==> Blank(s)
  {
    TrimEmptyIffBlank(s);
    TrimKeepsNonSpaceEnds(s);
    TrimIsInnerSlice(s);
    TrimEnd(TrimStart(s))
  }

  /** `r` occurs in `s` starting at index `k`: it is `s[k..k + |r|]`. */
  predicate SliceAt(r: string, s: string, k: int)
    requires 0 <= k && k + |r| <= |s|
  {
    forall i :: 0 <= i < |r| ==> r[i] == s[k + i]
  }

  /** `SliceAt` is the pointwise reading of slice equality. */
  lemma SliceAtIsSlice(r: string, s: string, k: nat)
    requires k + |r| <= |s|
    ensures SliceAt(r, s, k) <==> r == s[k..k + |r|]
  {
    if SliceAt(r, s, k) {
      assert forall i :: 0 <= i < |r| ==> r[i] == s[k..k + |r|][i];
    }
  }

  /** Every character of `s` from `lo` up to `hi` is white space. */
  predicate SpaceRun(s: string, lo: int, hi: int)
    requires 0 <= lo <= hi <= |s|
  {
    forall i :: lo <= i < hi ==> IsSpace(s[i])
  }

  /** The trimmed text sits in the input between the dropped leading run and
      the dropped trailing run, both all white space. */
  lemma TrimIsInnerSlice(s: string)
    ensures var r := TrimEnd(TrimStart(s)); |r| <= |s|
    ensures var r := TrimEnd(TrimStart(s)); var k := |s| - |TrimStart(s)|;
      k + |r| <= |s| && SliceAt(r, s, k) && SpaceRun(s, 0, k) && SpaceRun(s, k + |r|, |s|)
  {
    var a := TrimStart(s);
    var r := TrimEnd(a);
    var k := |s| - |a|;
    PrefixOfSuffix(s, a, r, k);
    TrailingRunOfSuffix(s, a, k, |r|);
  }

  /** A prefix of the suffix of `s` from `k` occurs in `s` at `k`. */
  lemma PrefixOfSuffix(s: string, a: string, r: string, k: nat)
    requires k + |a| == |s| && a == s[k..] && |r| <= |a| && r == a[..|r|]
    ensures SliceAt(r, s, k)
  {
    forall i | 0 <= i < |r|
      ensures r[i] == s[k + i]
    {
      assert r[i] == a[i];
    }
  }

  /** A run of spaces at the end of a suffix is a run of spaces at the end of
      the whole text. */
  lemma TrailingRunOfSuffix(s: string, a: string, k: nat, n: nat)
    requires k + |a| == |s| && a == s[k..] && n <= |a|
    requires forall i :: n <= i < |a| ==> IsSpace(a[i])
    ensures SpaceRun(s, k + n, |s|)
  {
    forall i | k + n <= i < |s|
      ensures IsSpace(s[i])
    {
      assert s[i] == a[i - k];
    }
  }

  /** Both ends of the trimmed text are non-space: the front one because
      trimming the end keeps a prefix of what trimming the start left. */
  lemma TrimKeepsNonSpaceEnds(s: string)
    ensures var r := TrimEnd(TrimStart(s)); |r| > 0 ==> !IsSpace(r[0]) && !IsSpace(r[|r| - 1])
  {
    var a := TrimStart(s);
    var r := TrimEnd(a);
    if |r| > 0 {
      assert r[0] == a[0];
    }
  }

  /** Trimming leaves nothing exactly when the text is all white space. */
  lemma TrimEmptyIffBlank(s: string)
    ensures TrimEnd(TrimStart(s)) == "" <==> Blank(s)
  {
    var a := TrimStart(s);
    var k := |s| - |a|;
    assert forall i :: k <= i < |s| ==> s[i] == a[i - k];
    if Blank(s) && |a| > 0 {
      assert false;
    }
  }

  /** Send: blank input changes nothing; otherwise exactly one user message
      carrying the input as typed goes at the end, and the input is cleared. */
  function Send(messages: seq<Message>, input: string): (r: (seq<Message>, string))
    ensures Blank(input) ==> r == (messages, input)
    ensures !Blank(input) ==> r.0 == messages + [Message(UserRole, input)] && r.1 == ""
  {
    TrimEmptyIffBlank(input);
    if Trim(input) == "" then (messages, input)
    else (messages + [Message(UserRole, input)], "")
  }

  /** The first send after mount follows the greeting: the conversation is
      the assistant's greeting, then the user's text. */
  lemma FirstSendFollowsGreeting(input: string)
    requires !Blank(input)
    ensures var r := Send(Greeting, input);
      |r.0| == 2 && r.0[0].role == AssistantRole && r.0[1] == Message(UserRole, input) && r.1 == ""
  {
  }

  /** Pressing send again right after a send adds nothing. */
  lemma SendTwiceSendsOnce(messages: seq<Message>, input: string)
    ensures var r := Send(messages, input); Send(r.0, r.1) == r
  {
  }
}
