/** The relation edges of the graph store are filed under a digest of "from:type:to". A digest is modelled by its
    preimage, so two edges share an identifier exactly when they share this string. */
module EdgeKeys {

  datatype EdgeType = UserCreator | UserCommunity | UserAsset {
    function Name(): string {
      match this
      case UserCreator => "user_creator"
      case UserCommunity => "user_community"
      case UserAsset => "user_asset"
    }
  }

  datatype Triple = Triple(fromWallet: string, edgeType: EdgeType, toId: string)

  function Joined(wallet: string, name: string, toId: string): string {
    wallet + ":" + (name + ":" + toId)
  }

  function EdgeKey(t: Triple): string {
    Joined(t.fromWallet, t.edgeType.Name(), t.toId)
  }

  predicate StartsWith(s: string, p: string) {
    |p| <= |s| && s[..|p|] == p
  }

  /** A wallet text that reads as a shorter wallet followed by an edge type. */
  predicate Ambiguous(wallet: string) {
    exists t: EdgeType :: AmbiguousBy(wallet, t.Name())
  }

  predicate AmbiguousBy(wallet: string, name: string) {
    exists i :: 0 <= i < |wallet| && wallet[i] == ':' && (wallet[i + 1..] == name || StartsWith(wallet[i + 1..], name + ":"))
  }

  predicate NoColon(s: string) {
    forall i :: 0 <= i < |s| ==> s[i] != ':'
  }

  lemma NamesAreDistinct(t: EdgeType, u: EdgeType)
    ensures NoColon(t.Name())
    ensures t.Name() == u.Name() ==> t == u
  {
    assert |t.Name()| == if t.UserCreator? then 12 else if t.UserCommunity? then 14 else 10;
  }

  lemma JoinedParts(wallet: string, name: string, toId: string)
    ensures var key, n := Joined(wallet, name, toId), |wallet|;
            |key| > n && key[..n] == wallet && key[n] == ':' && key[n + 1..] == name + ":" + toId
  {
  }

  /** A string without colons, then a colon: the first colon is where it ends. */
  lemma FirstColon(a: string, b: string, x: string, y: string)
    requires a + ":" + x == b + ":" + y && NoColon(a) && NoColon(b)
    ensures a == b && x == y
  {
    var s := a + ":" + x;
    assert s[|a|] == ':' && s[|b|] == ':';
    assert forall i :: 0 <= i < |a| ==> s[i] == a[i];
    assert forall i :: 0 <= i < |b| ==> s[i] == b[i];
    assert s[..|a|] == a && s[..|b|] == b && s[|a| + 1..] == x && s[|b| + 1..] == y;
  }

  lemma SameWallet(w: string, n: string, x: string, v: string, m: string, y: string)
    requires Joined(w, n, x) == Joined(v, m, y) && |w| == |v| && NoColon(n) && NoColon(m)
    ensures w == v && n == m && x == y
  {
    JoinedParts(w, n, x);
    JoinedParts(v, m, y);
    FirstColon(n, m, x, y);
  }

  /** What a longer wallet must look like to collide with a shorter one. */
  lemma LongerWalletIsAmbiguous(w: string, n: string, x: string, v: string, m: string, y: string)
    requires Joined(w, n, x) == Joined(v, m, y) && |w| < |v| && NoColon(n)
    ensures AmbiguousBy(v, n)
  {
    JoinedParts(w, n, x);
    JoinedParts(v, m, y);
    var key, k := Joined(w, n, x), |v| - |w| - 1;
    var tail, rest := n + ":" + x, v[|w| + 1..];
    assert v[|w|] == ':';
    assert tail[k] == key[|v|] == ':' && rest == key[|w| + 1..|v|] == tail[..k];
    assert forall i :: 0 <= i < |n| ==> tail[i] == n[i];
    assert k >= |n|;
    if k > |n| { assert rest[..|n| + 1] == tail[..|n| + 1] == n + ":"; } else { assert rest == n; }
  }

  /** An ambiguous wallet does collide with a shorter one. */
  lemma AmbiguousCollides(v: string, n: string, m: string, y: string) returns (w: string, x: string)
    requires AmbiguousBy(v, n)
    ensures Joined(w, n, x) == Joined(v, m, y) && |w| < |v|
  {
    var i :| 0 <= i < |v| && v[i] == ':' && (v[i + 1..] == n || StartsWith(v[i + 1..], n + ":"));
    var rest := v[i + 1..];
    w := v[..i];
    var tail := ":" + (m + ":" + y);
    assert Joined(v, m, y) == w + ":" + (rest + tail);
    if rest == n {
      x := m + ":" + y;
      assert n + ":" + x == rest + tail;
    } else {
      x := rest[|n| + 1..] + tail;
      assert rest == n + ":" + rest[|n| + 1..];
      assert n + ":" + x == rest + tail;
    }
  }

  /** An edge never shares its identifier with an edge of an equally long or shorter wallet text if and only if its own
      wallet text is not ambiguous; a public key, which has no colon, never is. */
  lemma KeyIsInjectiveExactly(u: Triple)
    ensures (forall t: Triple :: |t.fromWallet| <= |u.fromWallet| && EdgeKey(t) == EdgeKey(u) ==> t == u) <==> !Ambiguous(u.fromWallet)
    ensures ':' !in u.fromWallet ==> !Ambiguous(u.fromWallet)
  {
    if Ambiguous(u.fromWallet) {
      var e: EdgeType :| AmbiguousBy(u.fromWallet, e.Name());
      var w, x := AmbiguousCollides(u.fromWallet, e.Name(), u.edgeType.Name(), u.toId);
      assert EdgeKey(Triple(w, e, x)) == EdgeKey(u);
    }
    forall t: Triple | |t.fromWallet| <= |u.fromWallet| && EdgeKey(t) == EdgeKey(u) && !Ambiguous(u.fromWallet)
      ensures t == u
    {
      NamesAreDistinct(t.edgeType, u.edgeType);
      NamesAreDistinct(u.edgeType, t.edgeType);
      if |t.fromWallet| < |u.fromWallet| {
        LongerWalletIsAmbiguous(t.fromWallet, t.edgeType.Name(), t.toId, u.fromWallet, u.edgeType.Name(), u.toId);
      } else {
        SameWallet(t.fromWallet, t.edgeType.Name(), t.toId, u.fromWallet, u.edgeType.Name(), u.toId);
      }
    }
  }

  lemma DistinctKeys(t: Triple, u: Triple)
    requires !Ambiguous(t.fromWallet) && !Ambiguous(u.fromWallet)
    ensures EdgeKey(t) == EdgeKey(u) <==> t == u
  {
    KeyIsInjectiveExactly(t);
    KeyIsInjectiveExactly(u);
  }
}
