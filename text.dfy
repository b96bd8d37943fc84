/**
 * String helpers the extractor relies on: Go's strings.TrimSpace (restricted to
 * ASCII whitespace), strings.Join, and the triple-backtick marker.
 */
module Text {

  /** The whitespace removed by trimming: space, tab, newline, vertical tab, form feed, carriage return. */
  predicate IsSpace(c: char) {
    c == ' ' || c == '\t' || c == '\n' || c == '\U{B}' || c == '\U{C}' || c == '\r'
  }

  predicate AllSpace(s: string) {
    forall k :: 0 <= k < |s| ==> IsSpace(s[k])
  }

  /** Number of whitespace characters at the front of `s`. */
  function LeadingSpace(s: string): (n: nat)
    ensures n <= |s|
    ensures forall k :: 0 <= k < n ==> IsSpace(s[k])
    ensures n < |s| ==> !IsSpace(s[n])
  {
    if s == [] || !IsSpace(s[0]) then 0 else 1 + LeadingSpace(s[1..])
  }

  /** Length of `s` once its trailing whitespace is dropped. */
  function TrailingStart(s: string): (n: nat)
    ensures n <= |s|
    ensures forall k :: n <= k < |s| ==> IsSpace(s[k])
    ensures n > 0 ==> !IsSpace(s[n - 1])
  {
    if s == [] || !IsSpace(s[|s| - 1]) then |s| else TrailingStart(s[..|s| - 1])
  }

  /**
   * strings.TrimSpace: `s` without its leading and trailing whitespace. The
   * result is empty exactly when `s` is all whitespace, and otherwise starts
   * and ends with a non-whitespace character.
   */
  function TrimSpace(s: string): (r: string)
    ensures r == [] <==> AllSpace(s)
    ensures r != [] ==> !IsSpace(r[0]) && !IsSpace(r[|r| - 1])
  {
    var e := TrailingStart(s);
    var b := LeadingSpace(s);
    if e <= b then [] else s[b..e]
  }

  /**
   * The trimmed string is the slice of `s` that starts after the leading
   * whitespace, and everything after it is whitespace.
   */
  lemma TrimSpaceSlice(s: string)
    ensures LeadingSpace(s) + |TrimSpace(s)| <= |s|
    ensures TrimSpace(s) == s[LeadingSpace(s)..LeadingSpace(s) + |TrimSpace(s)|]
    ensures AllSpace(s[LeadingSpace(s) + |TrimSpace(s)|..])
  {
    var b, e := LeadingSpace(s), TrailingStart(s);
    if e <= b {
      assert b == |s|;
    } else {
      assert TrimSpace(s) == s[b..e];
      forall k | 0 <= k < |s[e..]| ensures IsSpace(s[e..][k]) {
        assert s[e..][k] == s[e + k];
      }
    }
  }

  /**
   * TrimSpace returns exactly the stretch s[b..e] when everything before `b`
   * and from `e` on is whitespace and the stretch starts and ends with a
   * non-whitespace character.
   */
  lemma TrimSpaceIs(s: string, b: nat, e: nat)
    requires b < e <= |s|
    requires AllSpace(s[..b]) && AllSpace(s[e..])
    requires !IsSpace(s[b]) && !IsSpace(s[e - 1])
    ensures TrimSpace(s) == s[b..e]
  {
    assert LeadingSpace(s) == b;
    assert TrailingStart(s) == e;
  }

  /** strings.Join: the parts in order with `sep` between consecutive parts. */
  function Join(parts: seq<string>, sep: string): string
  {
    if |parts| == 0 then ""
    else if |parts| == 1 then parts[0]
    else parts[0] + sep + Join(parts[1..], sep)
  }

  /** The join is empty exactly when there is no part, or one empty part. */
  lemma JoinEmptyIff(parts: seq<string>, sep: string)
    requires sep != ""
    ensures Join(parts, sep) == "" <==> |parts| == 0 || (|parts| == 1 && parts[0] == "")
  {
  }

  /** A triple backtick starts at index `m` of `s`. */
  predicate FenceAt(s: string, m: int) {
    0 <= m && m + 3 <= |s| && s[m] == '`' && s[m + 1] == '`' && s[m + 2] == '`'
  }

  /** `s` contains no triple backtick. */
  predicate NoFence(s: string) {
    forall m :: 0 <= m < |s| ==> !FenceAt(s, m)
  }

  /** A fence inside a slice is a fence of the whole string, shifted by the slice's start. */
  lemma FenceInSlice(s: string, i: nat, j: nat, m: int)
    requires i <= j <= |s|
    requires FenceAt(s[i..j], m)
    ensures FenceAt(s, i + m)
  {
  }

  /** Joining fence-free parts with a backtick-free separator gives a fence-free string. */
  lemma {:induction false} JoinNoFence(parts: seq<string>, sep: string)
    requires forall k :: 0 <= k < |parts| ==> NoFence(parts[k])
    requires forall k :: 0 <= k < |sep| ==> sep[k] != '`'
    requires sep != ""
    ensures NoFence(Join(parts, sep))
  {
    if |parts| > 1 {
      JoinNoFence(parts[1..], sep);
      var a, rest := parts[0], Join(parts[1..], sep);
      var s := a + sep + rest;
      assert NoFence(a);
      forall m | 0 <= m < |s| ensures !FenceAt(s, m) {
        if m + 3 <= |a| {
          assert s[m] == a[m] && s[m + 1] == a[m + 1] && s[m + 2] == a[m + 2];
          assert !FenceAt(a, m);
        } else if m >= |a| + |sep| {
          assert !FenceAt(rest, m - |a| - |sep|);
        } else {
          // the three characters from m would cover a separator character
          var t := if m < |a| then |a| else m;
          assert s[t] == sep[t - |a|];
        }
      }
    }
  }
}
