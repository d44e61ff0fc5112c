/** Searching texts: occurrences, lines and blanks, as the string library has them. */
module TextSearch {
  import opened Options

  predicate At(s: string, i: nat, pat: string) {
    i + |pat| <= |s| && s[i..i + |pat|] == pat
  }

  lemma AtLetters(s: string, i: nat, pat: string)
    ensures At(s, i, pat) <==> i + |pat| <= |s| && forall k :: 0 <= k < |pat| ==> s[i + k] == pat[k]
    ensures At(s, i, pat) && |pat| >= 2 ==> s[i] == pat[0] && s[i + 1] == pat[1] && (|pat| >= 3 ==> s[i + 2] == pat[2])
  {
    if i + |pat| <= |s| && forall k :: 0 <= k < |pat| ==> s[i + k] == pat[k] {
      assert s[i..i + |pat|] == pat;
    }
    if At(s, i, pat) {
      forall k | 0 <= k < |pat| ensures s[i + k] == pat[k] {
        assert s[i..i + |pat|][k] == pat[k];
      }
    }
  }

  predicate Contains(s: string, pat: string) {
    exists i: nat :: i <= |s| && At(s, i, pat)
  }

  function FindLast(s: string, pat: string): (r: Option<nat>)
    ensures r.Some? ==> At(s, r.value, pat) && forall j: nat :: r.value < j ==> !At(s, j, pat)
    ensures r.None? ==> forall j: nat :: !At(s, j, pat)
  {
    LastFrom(s, pat, |s|)
  }

  function LastFrom(s: string, pat: string, n: nat): (r: Option<nat>)
    ensures r.Some? ==> r.value <= n && At(s, r.value, pat) && forall j: nat :: r.value < j <= n ==> !At(s, j, pat)
    ensures r.None? ==> forall j: nat :: j <= n ==> !At(s, j, pat)
  {
    if At(s, n, pat) then Some(n) else if n == 0 then None else LastFrom(s, pat, n - 1)
  }

  function FindFirst(s: string, pat: string): (r: Option<nat>)
    ensures r.Some? ==> At(s, r.value, pat) && forall j: nat :: j < r.value ==> !At(s, j, pat)
    ensures r.None? ==> forall j: nat :: !At(s, j, pat)
  {
    FirstFrom(s, pat, 0)
  }

  function FirstFrom(s: string, pat: string, n: nat): (r: Option<nat>)
    ensures r.Some? ==> n <= r.value && At(s, r.value, pat) && forall j: nat :: n <= j < r.value ==> !At(s, j, pat)
    ensures r.None? ==> forall j: nat :: n <= j ==> !At(s, j, pat)
    decreases |s| + 1 - n
  {
    if n > |s| then None else if At(s, n, pat) then Some(n) else FirstFrom(s, pat, n + 1)
  }

  predicate StartsWith(s: string, pat: string) {
    At(s, 0, pat)
  }

  // ----- blanks -----

  predicate IsSpace(c: char) {
    c == ' ' || '\t' <= c <= '\r'
  }

  function TrimStart(s: string): string {
    if s != [] && IsSpace(s[0]) then TrimStart(s[1..]) else s
  }

  function TrimEnd(s: string): string {
    if s != [] && IsSpace(s[|s| - 1]) then TrimEnd(s[..|s| - 1]) else s
  }

  function Trim(s: string): string {
    TrimEnd(TrimStart(s))
  }

  // ----- lines -----

  /** The start of the line that position `at` is on. */
  function LineStart(s: string, at: nat): (r: nat)
    requires at <= |s|
    ensures r <= at && (r == 0 || s[r - 1] == '\n')
    ensures forall i :: r <= i < at ==> s[i] != '\n'
  {
    if at == 0 || s[at - 1] == '\n' then at else LineStart(s, at - 1)
  }

  /** Where the first line ends. */
  function LineEnd(s: string): (r: nat)
    ensures r <= |s| && (r < |s| ==> s[r] == '\n')
    ensures forall i :: 0 <= i < r ==> s[i] != '\n'
  {
    if s == [] || s[0] == '\n' then 0 else LineEnd(s[1..]) + 1
  }

  function Lines(s: string): seq<string> {
    if s == [] then []
    else
      var n := LineEnd(s);
      if n == |s| then [s]
      else [if n > 0 && s[n - 1] == '\r' then s[..n - 1] else s[..n]] + Lines(s[n + 1..])
  }
}
