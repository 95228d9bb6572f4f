/**
 * The storage plugin's string rules (`src/plugins/storage.js`): the URL
 * prefix the static file server is mounted on, and the public URL of a
 * stored file. Creating the directory and registering the server are left
 * out.
 */
module Storage {
  import opened Text

  /** The prefix the static server is mounted on: the public path, with a `/` added when missing. */
  function StaticPrefix(publicPath: string): (prefix: string)
    ensures EndsWith(prefix, "/")
    ensures EndsWith(publicPath, "/") ==> prefix == publicPath
    ensures !EndsWith(publicPath, "/") ==> prefix == publicPath + "/"
  {
    if EndsWith(publicPath, "/") then publicPath else publicPath + "/"
  }

  /** The prefix rule applied twice gives the same prefix. */
  lemma StaticPrefixIdempotent(publicPath: string)
    ensures StaticPrefix(StaticPrefix(publicPath)) == StaticPrefix(publicPath)
  {
  }

  /** `.replace(/\/$/, '')`: one trailing slash removed. */
  function StripTrailingSlash(s: string): (r: string)
    ensures EndsWith(s, "/") ==> r + "/" == s
    ensures !EndsWith(s, "/") ==> r == s
  {
    if EndsWith(s, "/") then s[..|s| - 1] else s
  }

  /** A `//` starts at index `i`. */
  predicate DoubleSlashAt(s: string, i: int) {
    0 <= i < |s| - 1 && s[i] == '/' && s[i + 1] == '/'
  }

  /**
   * `.replace(/\/\//g, '/')`: scanning left to right, each `//` not
   * overlapping one already replaced becomes `/` (so `///` becomes `//`).
   */
  function CollapseDoubleSlashes(s: string): (r: string)
    ensures |r| <= |s|
    decreases |s|
  {
    if |s| < 2 then s
    else if s[0] == '/' && s[1] == '/' then "/" + CollapseDoubleSlashes(s[2..])
    else [s[0]] + CollapseDoubleSlashes(s[1..])
  }

  /** A string without `//` is left as it is. */
  lemma {:induction false} CollapseWithoutDoubleSlash(s: string)
    requires forall i :: !DoubleSlashAt(s, i)
    ensures CollapseDoubleSlashes(s) == s
    decreases |s|
  {
    if |s| >= 2 {
      assert !DoubleSlashAt(s, 0);
      forall i ensures !DoubleSlashAt(s[1..], i) {
        assert !DoubleSlashAt(s, i + 1);
      }
      CollapseWithoutDoubleSlash(s[1..]);
    }
  }

  /** How many characters the first step consumes: two for a leading `//`, else one. */
  function StepLength(s: string): nat {
    if |s| >= 2 && s[0] == '/' && s[1] == '/' then 2 else 1
  }

  /** The first step: a leading `//` gives `/`, any other first character is kept. */
  lemma CollapseFront(s: string)
    requires s != []
    ensures StepLength(s) <= |s|
    ensures CollapseDoubleSlashes(s) == (if StepLength(s) == 2 then "/" else [s[0]]) + CollapseDoubleSlashes(s[StepLength(s)..])
  {
  }

  /**
   * Matches go left to right and do not overlap: a `//` at `i` that no `/`
   * precedes becomes one `/`, and the text before and after it is collapsed
   * on its own (so `a//b` gives `a/b`, and `///` gives `//`).
   */
  lemma {:induction false} CollapseSplit(s: string, i: nat)
    requires DoubleSlashAt(s, i)
    requires i == 0 || s[i - 1] != '/'
    ensures CollapseDoubleSlashes(s) == CollapseDoubleSlashes(s[..i]) + "/" + CollapseDoubleSlashes(s[i + 2..])
    decreases i
  {
    if i == 0 {
      CollapseFront(s);
      assert s[..0] == [];
    } else {
      var k := StepLength(s);
      var t := s[k..];
      assert StepLength(s[..i]) == k;
      CollapseFront(s);
      CollapseFront(s[..i]);
      CollapseSplit(t, i - k);
      assert t[i - k + 2..] == s[i + 2..];
      assert s[..i][k..] == t[..i - k];
      var head := if k == 2 then "/" else [s[0]];
      var before := CollapseDoubleSlashes(t[..i - k]);
      var after := CollapseDoubleSlashes(s[i + 2..]);
      assert head + (before + "/" + after) == (head + before) + "/" + after;
    }
  }

  /** `toPublicUrl`: the public path without its trailing slash, a `/`, the key; then `//` collapsed. */
  function ToPublicUrl(publicPath: string, storageKey: string): string {
    CollapseDoubleSlashes(StripTrailingSlash(publicPath) + "/" + storageKey)
  }

  /** A trailing `/` on the public path makes no difference: `/storage/` and `/storage` give the same URL. */
  lemma TrailingSlashIrrelevant(publicPath: string, storageKey: string)
    requires !EndsWith(publicPath, "/")
    ensures ToPublicUrl(publicPath + "/", storageKey) == ToPublicUrl(publicPath, storageKey)
  {
    assert StripTrailingSlash(publicPath + "/") == publicPath by {
      assert EndsWith(publicPath + "/", "/");
    }
  }

  /** Without any `//` in the inputs and a key not starting with `/`, the URL is the plain join. */
  lemma PlainJoin(publicPath: string, storageKey: string)
    requires forall i :: !DoubleSlashAt(publicPath, i)
    requires forall i :: !DoubleSlashAt(storageKey, i)
    requires storageKey == [] || storageKey[0] != '/'
    ensures ToPublicUrl(publicPath, storageKey) == StripTrailingSlash(publicPath) + "/" + storageKey
  {
    var p := StripTrailingSlash(publicPath);
    assert p == publicPath[..|p|];
    var s := p + "/" + storageKey;
    forall i ensures !DoubleSlashAt(s, i) {
      if 0 <= i < |s| - 1 {
        if i < |p| - 1 {
          assert !DoubleSlashAt(publicPath, i);
        } else if i == |p| - 1 {
          // the stripped path ends in `/` only if the path ended in `//`
          assert EndsWith(publicPath, "/") && p[i] == '/' ==> DoubleSlashAt(publicPath, i);
        } else if i > |p| {
          assert s[i] == storageKey[i - |p| - 1] && s[i + 1] == storageKey[i - |p|];
          assert !DoubleSlashAt(storageKey, i - |p| - 1);
        }
      }
    }
    CollapseWithoutDoubleSlash(s);
  }
}
