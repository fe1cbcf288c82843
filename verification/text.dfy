/** String helpers used by the command interpreter: splitting a line into
    whitespace-separated fields, joining fields back with single spaces, and
    lower-casing the command word. */
module Text {

  /** The white-space characters below U+0100 that separate fields. */
  predicate IsSpace(c: char) {
    c == ' ' || c == '\t' || c == '\n' || c == '\U{0B}' || c == '\U{0C}' || c == '\r'
    || c == '\U{85}' || c == '\U{A0}'
  }

  /** A field: a non-empty run of characters without white space. */
  predicate IsToken(w: string) {
    |w| > 0 && forall i :: 0 <= i < |w| ==> !IsSpace(w[i])
  }

  predicate AllTokens(ts: seq<string>) {
    forall i :: 0 <= i < |ts| ==> IsToken(ts[i])
  }

  predicate AllSpace(s: string) {
    forall i :: 0 <= i < |s| ==> IsSpace(s[i])
  }

  /** Length of the longest prefix of `s` free of white space. */
  function WordEnd(s: string): (n: nat)
    ensures n <= |s|
    ensures forall i :: 0 <= i < n ==> !IsSpace(s[i])
    ensures n < |s| ==> IsSpace(s[n])
  {
    if s == [] || IsSpace(s[0]) then 0 else 1 + WordEnd(s[1..])
  }

  /** The maximal runs of non-white-space characters of `s`, in order. */
  function Fields(s: string): (ts: seq<string>)
    ensures AllTokens(ts)
    ensures ts == [] <==> AllSpace(s)
    decreases |s|
  {
    if s == [] then []
    else if IsSpace(s[0]) then
      var rest := Fields(s[1..]);
      assert AllSpace(s[1..]) ==> AllSpace(s) by {
        if AllSpace(s[1..]) {
          forall i | 0 <= i < |s| ensures IsSpace(s[i]) {
            if i > 0 { assert s[i] == s[1..][i - 1]; }
          }
        }
      }
      rest
    else
      var n := WordEnd(s);
      [s[..n]] + Fields(s[n..])
  }

  /** The fields of `ts` separated by one space each: the result starts with
      the first field, a single field joins to itself, and a second field is
      preceded by one space. `JoinAppend` pins it from the other end, and
      `FieldsOfJoin` shows that `Fields` undoes it. */
  function Join(ts: seq<string>): (r: string)
    ensures ts == [] ==> r == ""
    ensures |ts| == 1 ==> r == ts[0]
    ensures |ts| > 0 ==> |ts[0]| <= |r| && r[..|ts[0]|] == ts[0]
    ensures |ts| > 1 ==> |ts[0]| < |r| && r[|ts[0]|] == ' '
  {
    if |ts| == 0 then ""
    else if |ts| == 1 then ts[0]
    else ts[0] + " " + Join(ts[1..])
  }

  function LowerChar(c: char): char {
    if 'A' <= c <= 'Z' then (c as int + 32) as char else c
  }

  /** `s` with every ASCII capital replaced by its small letter. */
  function Lower(s: string): (r: string)
    ensures |r| == |s|
    ensures forall i :: 0 <= i < |s| ==> r[i] == LowerChar(s[i])
  {
    if s == [] then [] else [LowerChar(s[0])] + Lower(s[1..])
  }

  /** Lower-casing leaves no capital behind, so applying it twice changes nothing. */
  lemma LowerIdempotent(s: string)
    ensures Lower(Lower(s)) == Lower(s)
    ensures forall i :: 0 <= i < |s| ==> !('A' <= Lower(s)[i] <= 'Z')
  {
    var once := Lower(s);
    forall i | 0 <= i < |s|
      ensures !('A' <= once[i] <= 'Z') && LowerChar(once[i]) == once[i]
    {
      assert once[i] == LowerChar(s[i]);
    }
    assert Lower(once) == once;
  }

  /** A field followed by white space, or by nothing, ends where the field ends. */
  lemma WordEndOfToken(w: string, rest: string)
    requires IsToken(w)
    requires rest == [] || IsSpace(rest[0])
    ensures WordEnd(w + rest) == |w|
  {
    var s := w + rest;
    assert forall i :: 0 <= i < |w| ==> s[i] == w[i];
    assert |w| < |s| ==> s[|w|] == rest[0];
  }

  lemma FieldsOfToken(w: string)
    requires IsToken(w)
    ensures Fields(w) == [w]
  {
    WordEndOfToken(w, []);
    assert w + [] == w;
    assert w[..|w|] == w;
    assert w[|w|..] == [];
  }

  /** Leading white space contributes no field. */
  lemma {:induction false} FieldsSkipsSpace(sp: string, s: string)
    requires AllSpace(sp)
    ensures Fields(sp + s) == Fields(s)
    decreases |sp|
  {
    if sp != [] {
      var t := sp + s;
      assert t[0] == sp[0] && IsSpace(t[0]);
      assert t[1..] == sp[1..] + s;
      assert Fields(t) == Fields(t[1..]);
      assert AllSpace(sp[1..]) by {
        forall i | 0 <= i < |sp[1..]| ensures IsSpace(sp[1..][i]) { assert sp[1..][i] == sp[i + 1]; }
      }
      FieldsSkipsSpace(sp[1..], s);
    } else {
      assert sp + s == s;
    }
  }

  /** A field followed by white space is the first field, and splitting goes on
      after the white space. With `FieldsOfToken` and `FieldsSkipsSpace` this
      determines the fields of every line. */
  lemma FieldsOfTokenThen(w: string, sp: string, s: string)
    requires IsToken(w)
    requires |sp| > 0 && AllSpace(sp)
    ensures Fields(w + sp + s) == [w] + Fields(s)
  {
    var t := w + sp + s;
    assert t == w + (sp + s);
    WordEndOfToken(w, sp + s);
    assert t[0] == w[0];
    assert t[..|w|] == w;
    assert t[|w|..] == sp + s;
    FieldsSkipsSpace(sp, s);
  }

  /** Joining one more field appends one space and that field, so every
      consecutive pair of fields is separated by exactly one space. */
  lemma {:induction false} JoinAppend(ts: seq<string>, w: string)
    requires |ts| > 0
    ensures Join(ts + [w]) == Join(ts) + " " + w
    decreases |ts|
  {
    if |ts| == 1 {
      assert ts + [w] == [ts[0], w];
      assert [ts[0], w][1..] == [w];
    } else {
      assert (ts + [w])[0] == ts[0];
      assert (ts + [w])[1..] == ts[1..] + [w];
      JoinAppend(ts[1..], w);
    }
  }

  /** Splitting the joined fields gives back exactly the fields. */
  lemma {:induction false} FieldsOfJoin(ts: seq<string>)
    requires AllTokens(ts)
    ensures Fields(Join(ts)) == ts
    decreases |ts|
  {
    if |ts| == 0 {
    } else if |ts| == 1 {
      FieldsOfToken(ts[0]);
    } else {
      var w := ts[0];
      var tail := Join(ts[1..]);
      assert IsToken(w);
      var s := w + (" " + tail);
      assert Join(ts) == s;
      WordEndOfToken(w, " " + tail);
      assert s[..|w|] == w;
      assert s[|w|..] == " " + tail;
      assert (" " + tail)[1..] == tail;
      FieldsOfJoin(ts[1..]);
    }
  }
}
