/** The few JavaScript value rules the handlers and the page scripts rely on:
    `undefined`, truthiness of strings, `a || b`, `String.prototype.trim`,
    `startsWith`, substring search and ASCII case folding. */
module Js {

  datatype Option<+T> = None | Some(value: T)

  /** A string-valued property that may be absent (`undefined` or `null`). */
  type Field = Option<string>

  /** JavaScript truthiness of a string-or-undefined value. */
  predicate Truthy(v: Field) {
    v.Some? && v.value != ""
  }

  /** `v || d` for a string default `d`. */
  function OrElse(v: Field, d: string): (r: string)
    ensures Truthy(v) ==> r == v.value
    ensures !Truthy(v) ==> r == d
  {
    if Truthy(v) then v.value else d
  }

  // ---------------------------------------------------------------------
  // trim

  /** The WhiteSpace and LineTerminator code points of ECMAScript (sections
      12.2 and 12.3 of ECMA-262), which `String.prototype.trim` strips. */
  predicate IsSpace(c: char) {
    || c == '\t' || c == '\n' || c == '\U{B}' || c == '\U{C}' || c == '\r'
    || c == ' ' || c == '\U{A0}' || c == '\U{1680}'
    || ('\U{2000}' <= c <= '\U{200A}')
    || c == '\U{2028}' || c == '\U{2029}' || c == '\U{202F}' || c == '\U{205F}'
    || c == '\U{3000}' || c == '\U{FEFF}'
  }

  predicate AllSpace(s: string) {
    forall i :: 0 <= i < |s| ==> IsSpace(s[i])
  }

  /** Neither end of `s` is white space. */
  predicate NoEdgeSpace(s: string) {
    s == [] || (!IsSpace(s[0]) && !IsSpace(s[|s| - 1]))
  }

  /** Drops the leading white space. */
  function TrimStart(s: string): string {
    if |s| > 0 && IsSpace(s[0]) then TrimStart(s[1..]) else s
  }

  /** Drops the trailing white space. */
  function TrimEnd(s: string): string {
    if |s| > 0 && IsSpace(s[|s| - 1]) then TrimEnd(s[..|s| - 1]) else s
  }

  /** `s.trim()` */
  function Trim(s: string): string {
    TrimEnd(TrimStart(s))
  }

  /** What `TrimStart` leaves is a suffix of `s`, what it drops is white
      space, and it starts with a character that is not. */
  lemma {:induction false} TrimStartSpec(s: string)
    ensures |TrimStart(s)| <= |s| && TrimStart(s) == s[|s| - |TrimStart(s)|..]
    ensures AllSpace(s[..|s| - |TrimStart(s)|])
    ensures TrimStart(s) == [] || !IsSpace(TrimStart(s)[0])
  {
    if |s| > 0 && IsSpace(s[0]) {
      TrimStartSpec(s[1..]);
      var r := TrimStart(s[1..]);
      assert s[|s| - |r|..] == s[1..][|s[1..]| - |r|..];
      assert s[..|s| - |r|] == [s[0]] + s[1..][..|s[1..]| - |r|];
    }
  }

  /** What `TrimEnd` leaves is a prefix of `s`, what it drops is white
      space, and it ends with a character that is not. */
  lemma {:induction false} TrimEndSpec(s: string)
    ensures |TrimEnd(s)| <= |s| && TrimEnd(s) == s[..|TrimEnd(s)|]
    ensures AllSpace(s[|TrimEnd(s)|..])
    ensures TrimEnd(s) == [] || !IsSpace(TrimEnd(s)[|TrimEnd(s)| - 1])
  {
    if |s| > 0 && IsSpace(s[|s| - 1]) {
      var t := s[..|s| - 1];
      TrimEndSpec(t);
      var r := TrimEnd(t);
      assert s[..|r|] == t[..|r|];
      assert s[|r|..] == t[|r|..] + [s[|s| - 1]];
    }
  }

  /** Trimming the end of a string that starts with a non-space keeps that
      start. */
  lemma TrimEndKeepsStart(s: string)
    requires s == [] || !IsSpace(s[0])
    ensures TrimEnd(s) == [] || !IsSpace(TrimEnd(s)[0])
  {
    TrimEndSpec(s);
  }

  /** Where the trimmed part starts inside `s`. */
  function TrimOffset(s: string): nat {
    TrimStartSpec(s);
    |s| - |TrimStart(s)|
  }

  /** `s` is its trimmed part framed by white space on both sides, and
      the trimmed part has no white space at either end. */
  lemma TrimSplits(s: string)
    ensures TrimOffset(s) + |Trim(s)| <= |s|
    ensures s[TrimOffset(s)..TrimOffset(s) + |Trim(s)|] == Trim(s)
    ensures AllSpace(s[..TrimOffset(s)]) && AllSpace(s[TrimOffset(s) + |Trim(s)|..])
    ensures NoEdgeSpace(Trim(s))
  {
    var a, t, k := TrimStart(s), Trim(s), TrimOffset(s);
    TrimStartSpec(s);
    TrimEndSpec(a);
    assert a == s[k..];
    assert t == a[..|t|];
    assert s[k..k + |t|] == t;
    assert s[k + |t|..] == a[|t|..];
    TrimEndKeepsStart(a);
  }

  lemma {:induction false} TrimStartOfNoLeadingSpace(s: string)
    requires s == [] || !IsSpace(s[0])
    ensures TrimStart(s) == s
  {
  }

  lemma {:induction false} TrimEndOfNoTrailingSpace(s: string)
    requires s == [] || !IsSpace(s[|s| - 1])
    ensures TrimEnd(s) == s
  {
  }

  /** A string with no white space at its ends is its own trim. */
  lemma TrimOfNoEdgeSpace(s: string)
    requires NoEdgeSpace(s)
    ensures Trim(s) == s
  {
    TrimStartOfNoLeadingSpace(s);
    TrimEndOfNoTrailingSpace(s);
  }

  /** Trimming twice is trimming once. */
  lemma TrimIdempotent(s: string)
    ensures Trim(Trim(s)) == Trim(s)
  {
    TrimSplits(s);
    TrimOfNoEdgeSpace(Trim(s));
  }

  /** The trim is empty exactly when the string is all white space, so an
      empty or whitespace-only query or name is falsy after `.trim()`. */
  lemma {:induction false} TrimEmptyIffAllSpace(s: string)
    ensures Trim(s) == "" <==> AllSpace(s)
  {
    var a := TrimStart(s);
    TrimStartSpec(s);
    TrimEndSpec(a);
    if Trim(s) == "" {
      assert a == [];
      assert s[..|s|] == s;
    } else {
      assert a != [] && !IsSpace(a[0]);
      assert s[|s| - |a|] == a[0];
    }
  }

  // ---------------------------------------------------------------------
  // prefixes and substrings

  /** `s.startsWith(prefix)` */
  predicate StartsWith(s: string, prefix: string) {
    |prefix| <= |s| && s[..|prefix|] == prefix
  }

  /** `sub` occurs in `s` at position `i`. */
  ghost predicate OccursAt(s: string, sub: string, i: int) {
    0 <= i && i + |sub| <= |s| && s[i..i + |sub|] == sub
  }

  /** `s.includes(sub)`, by scanning from the left. */
  function Contains(s: string, sub: string): (r: bool)
    ensures r <==> exists i :: OccursAt(s, sub, i)
  {
    if StartsWith(s, sub) then
      assert OccursAt(s, sub, 0);
      true
    else if |s| == 0 then
      assert forall i :: !OccursAt(s, sub, i);
      false
    else
      var r := Contains(s[1..], sub);
      assert forall i :: OccursAt(s[1..], sub, i) ==> OccursAt(s, sub, i + 1) by {
        forall i | OccursAt(s[1..], sub, i) ensures OccursAt(s, sub, i + 1) {
          assert s[i + 1..i + 1 + |sub|] == s[1..][i..i + |sub|];
        }
      }
      assert forall i :: OccursAt(s, sub, i) && i > 0 ==> OccursAt(s[1..], sub, i - 1) by {
        forall i | OccursAt(s, sub, i) && i > 0 ensures OccursAt(s[1..], sub, i - 1) {
          assert s[i..i + |sub|] == s[1..][i - 1..i - 1 + |sub|];
        }
      }
      r
  }

  /** `s.findIndex(p)` (and `s.find(p)` through it): the first index whose
      element satisfies `p`. */
  function FindIndex<T>(s: seq<T>, p: T -> bool): (r: Option<nat>)
    ensures r.Some? ==> r.value < |s| && p(s[r.value]) && forall j :: 0 <= j < r.value ==> !p(s[j])
    ensures r.None? ==> forall j :: 0 <= j < |s| ==> !p(s[j])
  {
    if s == [] then None
    else if p(s[0]) then Some(0)
    else
      var r := FindIndex(s[1..], p);
      assert forall j :: 0 < j < |s| ==> s[j] == s[1..][j - 1];
      if r.None? then None else Some(r.value + 1)
  }

  // ---------------------------------------------------------------------
  // ASCII case folding (the `i` flag of a JavaScript regular expression,
  // restricted to ASCII letters)

  function Lower(c: char): (d: char)
    ensures 'A' <= c <= 'Z' ==> d as int == c as int + 32
    ensures !('A' <= c <= 'Z') ==> d == c
  {
    if 'A' <= c <= 'Z' then (c as int + 32) as char else c
  }

  function LowerAll(s: string): (r: string)
    ensures |r| == |s|
    ensures forall i :: 0 <= i < |s| ==> r[i] == Lower(s[i])
  {
    seq(|s|, i requires 0 <= i < |s| => Lower(s[i]))
  }

  /** `q` matches `s` at position `i` when case is ignored. */
  ghost predicate MatchesAtIgnoringCase(s: string, q: string, i: int) {
    0 <= i && i + |q| <= |s| && forall j :: 0 <= j < |q| ==> Lower(s[i + j]) == Lower(q[j])
  }

  /** `new RegExp(q, 'i').test(s)` for a query without metacharacters. */
  function ContainsIgnoringCase(s: string, q: string): (r: bool)
    ensures r <==> exists i :: MatchesAtIgnoringCase(s, q, i)
  {
    var ls, lq := LowerAll(s), LowerAll(q);
    var r := Contains(ls, lq);
    assert forall i :: OccursAt(ls, lq, i) <==> MatchesAtIgnoringCase(s, q, i) by {
      forall i ensures OccursAt(ls, lq, i) <==> MatchesAtIgnoringCase(s, q, i) {
        if 0 <= i && i + |q| <= |s| {
          if OccursAt(ls, lq, i) {
            forall j | 0 <= j < |q| ensures Lower(s[i + j]) == Lower(q[j]) {
              assert ls[i..i + |lq|][j] == ls[i + j];
            }
          }
          if MatchesAtIgnoringCase(s, q, i) {
            assert ls[i..i + |lq|] == lq;
          }
        }
      }
    }
    r
  }

  /** Changing the case of ASCII letters in the query never changes whether
      it matches (so `q=amy` finds the name "Amy"). */
  lemma IgnoringCaseIsCaseBlind(s: string, q: string, q': string)
    requires |q| == |q'| && forall j :: 0 <= j < |q| ==> Lower(q[j]) == Lower(q'[j])
    ensures ContainsIgnoringCase(s, q) == ContainsIgnoringCase(s, q')
  {
    if ContainsIgnoringCase(s, q) {
      var i :| MatchesAtIgnoringCase(s, q, i);
      assert MatchesAtIgnoringCase(s, q', i);
    }
    if ContainsIgnoringCase(s, q') {
      var i :| MatchesAtIgnoringCase(s, q', i);
      assert MatchesAtIgnoringCase(s, q, i);
    }
  }

  /** A query that occurs verbatim in `s` matches it. */
  lemma SubstringMatchesIgnoringCase(s: string, q: string, i: nat)
    requires OccursAt(s, q, i)
    ensures ContainsIgnoringCase(s, q)
  {
    forall j | 0 <= j < |q| ensures Lower(s[i + j]) == Lower(q[j]) {
      assert s[i..i + |q|][j] == s[i + j];
    }
    assert MatchesAtIgnoringCase(s, q, i);
  }
}
