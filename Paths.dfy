/** Path strings of the data store: normalisation, home directories and the
    two-argument path join used to place a registered sub-path. */
module Paths {

  /** The path normalisation the data store client applies (iRODSPath).
      Its rules belong to a foreign library; the model takes it as the identity. */
  function Clean(p: string): (r: string)
    ensures r == p
  {
    p
  }

  /** A path is absolute when it starts with the separator. */
  predicate IsAbsolute(p: string)
  {
    |p| > 0 && p[0] == '/'
  }

  /** `p` is `root` itself or lies somewhere in the subtree below `root`. */
  predicate Beneath(p: string, root: string)
  {
    p == root || root + "/" <= p
  }

  /** The directory that holds every home directory of `zone`. */
  function HomeRoot(zone: string): string
  {
    "/" + zone + "/home"
  }

  /** The home directory of `username` in `zone`: `/<zone>/home/<username>`. */
  function HomeDirectory(zone: string, username: string): (home: string)
    ensures home == "/" + zone + "/home/" + username
    ensures IsAbsolute(home)
    ensures Beneath(home, HomeRoot(zone))
    ensures |home| == |zone| + 7 + |username|
    ensures home[|zone| + 7..] == username
  {
    var prefix := HomeRoot(zone) + "/";
    assert |prefix| == |zone| + 7;
    assert prefix == "/" + zone + "/home/";
    assert Clean(prefix + username)[|prefix|..] == username;
    Clean(prefix + username)
  }

  /** Python's `os.path.join(a, b)`: an absolute `b` replaces `a`; otherwise `b`
      is appended to `a` with one separator between them. */
  function Join(a: string, b: string): (r: string)
    ensures IsAbsolute(b) ==> r == b
    ensures !IsAbsolute(b) ==> a <= r && |a| + |b| <= |r| <= |a| + |b| + 1 && r[|r| - |b|..] == b
    ensures !IsAbsolute(b) && |r| == |a| + |b| + 1 ==> r[|a|] == '/'
    ensures !IsAbsolute(b) && (a == "" || a[|a| - 1] == '/') ==> r == a + b
    ensures !IsAbsolute(b) && a != "" && a[|a| - 1] != '/' ==> r == a + "/" + b
  {
    if IsAbsolute(b) then b
    else if a == "" || a[|a| - 1] == '/' then a + b
    else a + "/" + b
  }

  /** Two users of one zone never share a home directory. */
  lemma HomeDirectoryInjective(zone: string, u: string, v: string)
    requires HomeDirectory(zone, u) == HomeDirectory(zone, v)
    ensures u == v
  {
  }

  /** The home of a user whose name has no separator lies in no other user's home,
      so removing one home's subtree leaves every other home in place. */
  lemma {:induction false} HomesNotNested(zone: string, u: string, v: string)
    requires u != v
    requires '/' !in v
    ensures !Beneath(HomeDirectory(zone, v), HomeDirectory(zone, u))
  {
    NestedHomeHasSeparator(zone, u, v);
    if HomeDirectory(zone, u) == HomeDirectory(zone, v) {
      HomeDirectoryInjective(zone, u, v);
    }
  }

  /** A home strictly inside another user's home belongs to a name with a separator. */
  lemma NestedHomeHasSeparator(zone: string, u: string, v: string)
    ensures HomeDirectory(zone, u) + "/" <= HomeDirectory(zone, v) ==> '/' in v
  {
    var hu, hv := HomeDirectory(zone, u), HomeDirectory(zone, v);
    var n := |zone| + 7;
    if hu + "/" <= hv {
      assert hv[n + |u|] == (hu + "/")[n + |u|] == '/';
      assert v[|u|] == hv[n + |u|];
    }
  }

  /** Two prefixes of one string are prefixes of each other, the shorter first;
      a prefix that ends in a separator leaves a prefix without it. */
  lemma PrefixesOrdered(a: string, b: string, p: string)
    ensures a <= p && b <= p && |a| <= |b| ==> a <= b
    ensures a + "/" <= p ==> a <= p
  {
    if a + "/" <= p {
      assert forall i :: 0 <= i < |a| ==> a[i] == (a + "/")[i] == p[i];
    }
    if a <= p && b <= p && |a| <= |b| {
      assert forall i :: 0 <= i < |a| ==> a[i] == p[i] == b[i];
    }
  }

  /** The subtrees of two users' homes, for names without separators, share no
      path. */
  lemma HomeSubtreesDisjoint(zone: string, u: string, v: string, p: string)
    requires u != v && '/' !in u && '/' !in v
    ensures Beneath(p, HomeDirectory(zone, u)) ==> !Beneath(p, HomeDirectory(zone, v))
  {
    var hu, hv := HomeDirectory(zone, u), HomeDirectory(zone, v);
    HomesNotNested(zone, u, v);
    HomesNotNested(zone, v, u);
    PrefixesOrdered(hu, hv, p);
    PrefixesOrdered(hv, hu, p);
    PrefixesOrdered(hu + "/", hv, p);
    PrefixesOrdered(hv + "/", hu, p);
  }

  /** A relative sub-path is placed under the base directory with one separator,
      when the base is a non-empty path without a trailing separator. */
  lemma JoinRelative(a: string, b: string)
    requires a != "" && a[|a| - 1] != '/'
    requires !IsAbsolute(b)
    ensures Join(a, b) == a + "/" + b
    ensures Beneath(Join(a, b), a)
  {
    assert a + "/" <= a + "/" + b;
  }

  /** An absolute sub-path replaces the base: nothing keeps the result under it. */
  lemma JoinAbsolute(a: string, b: string)
    requires IsAbsolute(b)
    ensures Join(a, b) == b
  {
  }

  /** A relative sub-path joined onto the home of a user whose name is non-empty
      and has no separator lies in that user's home, as a string, before
      normalisation: a `..` segment in the sub-path still reads as inside. */
  lemma JoinStaysInHome(zone: string, username: string, sub: string)
    requires username != "" && '/' !in username
    requires !IsAbsolute(sub)
    ensures Join(HomeDirectory(zone, username), sub) == HomeDirectory(zone, username) + "/" + sub
    ensures Beneath(Join(HomeDirectory(zone, username), sub), HomeDirectory(zone, username))
  {
    var home := HomeDirectory(zone, username);
    assert home[|home| - 1] == username[|username| - 1];
    JoinRelative(home, sub);
  }
}
