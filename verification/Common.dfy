/** Small vocabulary shared by the component models: optional values, Unicode white space and
    blank text as Go's `strings.TrimSpace` sees it. */
module Common {

  datatype Option<+T> = None | Some(value: T)

  /** The code points Go's `unicode.IsSpace` accepts. */
  predicate IsSpace(c: char) {
    || '\t' <= c <= '\r'
    || c == ' ' || c == '\U{0085}' || c == '\U{00A0}' || c == '\U{1680}'
    || c == '\U{2028}' || c == '\U{2029}' || c == '\U{202F}' || c == '\U{205F}' || c == '\U{3000}'
    || '\U{2000}' <= c <= '\U{200A}'
  }

  /** `strings.TrimSpace(s) == ""`. */
  predicate Blank(s: string) {
    s == "" || (IsSpace(s[0]) && Blank(s[1..]))
  }

  function TrimLeft(s: string): (r: string)
    ensures r != "" ==> !IsSpace(r[0])
    ensures |r| <= |s| && r == s[|s| - |r|..]
  {
    if s != "" && IsSpace(s[0]) then TrimLeft(s[1..]) else s
  }

  function TrimRight(s: string): (r: string)
    ensures r != "" ==> !IsSpace(r[|r| - 1])
    ensures |r| <= |s| && r == s[..|r|]
  {
    if s != "" && IsSpace(s[|s| - 1]) then TrimRight(s[..|s| - 1]) else s
  }

  /** `strings.TrimSpace`. */
  function TrimSpace(s: string): (r: string)
    ensures r != "" ==> !IsSpace(r[0]) && !IsSpace(r[|r| - 1])
  {
    TrimRight(TrimLeft(s))
  }

  lemma {:induction false} BlankTrimsAway(s: string)
    ensures Blank(s) <==> TrimSpace(s) == ""
    decreases |s|
  {
    if s != "" && IsSpace(s[0]) {
      BlankTrimsAway(s[1..]);
    } else if s != "" {
      TrimRightKeepsFirst(s);
    }
  }

  lemma {:induction false} TrimRightKeepsFirst(s: string)
    requires s != "" && !IsSpace(s[0])
    ensures TrimRight(s) != ""
    decreases |s|
  {
    if IsSpace(s[|s| - 1]) {
      TrimRightKeepsFirst(s[..|s| - 1]);
    }
  }

  lemma TrimmedStays(s: string)
    requires s != "" ==> !IsSpace(s[0]) && !IsSpace(s[|s| - 1])
    ensures TrimSpace(s) == s
  {
  }

  predicate AllSpace(s: string) {
    forall i :: 0 <= i < |s| ==> IsSpace(s[i])
  }

  lemma {:induction false} TrimLeftDropsSpace(s: string)
    ensures AllSpace(s[..|s| - |TrimLeft(s)|])
  {
    if s != "" && IsSpace(s[0]) {
      TrimLeftDropsSpace(s[1..]);
      var n := |s| - |TrimLeft(s)|;
      assert s[..n] == [s[0]] + s[1..][..n - 1];
    }
  }

  lemma {:induction false} TrimRightDropsSpace(s: string)
    ensures AllSpace(s[|TrimRight(s)|..])
  {
    if s != "" && IsSpace(s[|s| - 1]) {
      var init := s[..|s| - 1];
      TrimRightDropsSpace(init);
      var n := |TrimRight(init)|;
      assert s[n..] == init[n..] + [s[|s| - 1]];
    }
  }

  /** What `TrimSpace` removes is white space at the two ends. */
  lemma TrimSplits(s: string) returns (i: nat, j: nat)
    ensures i <= j <= |s| && s[i..j] == TrimSpace(s) && AllSpace(s[..i]) && AllSpace(s[j..])
  {
    var left := TrimLeft(s);
    var n := |TrimRight(left)|;
    i, j := |s| - |left|, |s| - |left| + n;
    TrimLeftDropsSpace(s);
    TrimRightDropsSpace(left);
    SliceOfSlice(s, i, n);
  }

  lemma SliceOfSlice(s: string, i: nat, n: nat)
    requires i + n <= |s|
    ensures s[i..i + n] == s[i..][..n] && s[i + n..] == s[i..][n..]
  {
  }

  lemma {:induction false} TrimLeftOf(pre: string, t: string)
    requires AllSpace(pre) && t != "" && !IsSpace(t[0])
    ensures TrimLeft(pre + t) == t
  {
    if pre == "" {
      assert pre + t == t;
    } else {
      TrimLeftOf(pre[1..], t);
      assert (pre + t)[1..] == pre[1..] + t;
    }
  }

  lemma {:induction false} TrimRightOf(t: string, post: string)
    requires AllSpace(post) && t != "" && !IsSpace(t[|t| - 1])
    ensures TrimRight(t + post) == t
  {
    if post == "" {
      assert t + post == t;
    } else {
      TrimRightOf(t, post[..|post| - 1]);
      assert (t + post)[..|t + post| - 1] == t + post[..|post| - 1];
    }
  }

  /** And nothing else leaves what `TrimSpace` leaves. */
  lemma TrimOf(pre: string, t: string, post: string)
    requires AllSpace(pre) && AllSpace(post) && t != "" && !IsSpace(t[0]) && !IsSpace(t[|t| - 1])
    ensures TrimSpace(pre + t + post) == t
  {
    assert pre + t + post == pre + (t + post);
    TrimLeftOf(pre, t + post);
    TrimRightOf(t, post);
  }
}
