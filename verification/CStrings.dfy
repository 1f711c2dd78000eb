/** The C string functions the scanner calls, over character arrays; -1 is the null pointer. */
module CStrings {
  import opened CommentAutomaton

  const NULLPTR := -1
  const BUFFER: nat := 256

  predicate Delimiter(c: char)
  {
    c == ' ' || c == '\t' || c == ';'
  }

  /** buf holds a C string at offset p, ended by the NUL at offset e. */
  ghost predicate CString(buf: array<char>, p: int, e: int)
    reads buf
  {
    0 <= p <= e < buf.Length && buf[e] == NUL && NUL !in buf[p..e]
  }

  predicate MatchAt(buf: array<char>, p: nat, marker: string)
    reads buf
  {
    p + |marker| <= buf.Length && buf[p..p + |marker|] == marker
  }

  lemma MatchInside(buf: array<char>, k: nat, marker: string, e: nat)
    requires MatchAt(buf, k, marker) && k <= e < buf.Length && buf[e] == NUL && NUL !in marker
    ensures k + |marker| <= e
  {
    if k + |marker| > e {
      assert false;
    }
  }

  /** strstr: the first occurrence of the marker in the string at p. */
  method Find(buf: array<char>, p: nat, marker: string, ghost e: nat) returns (q: int)
    requires CString(buf, p, e) && marker != "" && NUL !in marker
    ensures q == NULLPTR ==> forall k: nat | p <= k < e :: !MatchAt(buf, k, marker)
    ensures q != NULLPTR ==> p <= q && q + |marker| <= e && MatchAt(buf, q, marker)
    ensures q != NULLPTR ==> forall k: nat | p <= k < q :: !MatchAt(buf, k, marker)
  {
    q := p;
    while buf[q] != NUL
      decreases e - q
      invariant p <= q <= e
      invariant forall k: nat | p <= k < q :: !MatchAt(buf, k, marker)
    {
      if MatchAt(buf, q, marker) {
        MatchInside(buf, q, marker, e);
        return;
      }
      q := q + 1;
    }
    q := NULLPTR;
  }

  /** strtok_r, continuing at `from`: skips delimiters, finds the end e of the token, and overwrites the
      delimiter there with NUL. */
  method NextToken(buf: array<char>, from: nat, ghost end: nat)
    returns (token: int, context: nat, ghost e: nat)
    requires CString(buf, from, end)
    modifies buf
    ensures token == NULLPTR ==>
      (context == end && buf[..] == old(buf[..]) && forall k | from <= k < end :: Delimiter(buf[k]))
    ensures token != NULLPTR ==>
      (&& from <= token < e <= end
       && (forall k | from <= k < token :: Delimiter(old(buf[k])))
       && (forall k | token <= k < e :: !Delimiter(old(buf[k])))
       && (if e < end then Delimiter(old(buf[e])) && context == e + 1 else context == end)
       && (forall k | 0 <= k < buf.Length && k != e :: buf[k] == old(buf[k]))
       && CString(buf, token, e) && CString(buf, context, end))
  {
    var i := from;
    e := from;
    while buf[i] != NUL && Delimiter(buf[i])
      decreases end - i
      invariant from <= i <= end
      invariant forall k | from <= k < i :: Delimiter(buf[k])
    {
      i := i + 1;
    }
    if buf[i] == NUL {
      return NULLPTR, i, e;
    }
    token := i;
    while buf[i] != NUL && !Delimiter(buf[i])
      decreases end - i
      invariant token <= i <= end
      invariant i > token || !Delimiter(buf[i])
      decreases end - i
      invariant forall k | token <= k < i :: !Delimiter(buf[k])
    {
      i := i + 1;
    }
    e := i;
    if buf[i] == NUL {
      context := i;
    } else {
      buf[i] := NUL;
      context := i + 1;
    }
  }
}
