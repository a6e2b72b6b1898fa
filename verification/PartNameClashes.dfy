/**
 When the internal names of single-part mode tell channels apart, for any set of views: views may be
 empty and may contain dots.  `SplitChannels` (backend/include/OpenEXR/ImfPartHelper.h) checks neither.
 */
module PartNameClashes {
  import opened PartNames

  /** Distinct channels with views in `views` get distinct internal names, whatever they are called. */
  ghost predicate Distinguishes(views: set<string>, hero: string) {
    forall n, v, m, w :: v in views && w in views && InternalName(n, v, hero) == InternalName(m, w, hero)
                         ==> n == m && v == w
  }

  predicate EndsWith(s: string, t: string) {
    |t| <= |s| && s[|s| - |t|..] == t
  }

  /** Some channel of view `v` gets the internal name of some channel of view `w`. */
  predicate Clash(v: string, w: string, hero: string) {
    || EndsWith(v, "." + w)                                              // "l.v.x" as "l.u.w.x"
    || (v != hero && w != hero && v == w + ".")                          // "v.x" as "w..x"
    || (v != hero && |w| < |v| && EndsWith(v + ".", "." + w))            // "v..x" as "l.w.x"
  }

  /** A condition on the views alone. */
  predicate Apart(views: set<string>, hero: string) {
    && ("" in views ==> views == {""})
    && forall v, w :: v in views && w in views && v != w ==> !Clash(v, w, hero)
  }

  // ---------------------------------------------------------------------------------------------
  // Views apart: names are distinct
  // ---------------------------------------------------------------------------------------------

  /** A channel without a layer keeps its name in the hero view. */
  predicate Bare(name: string, view: string, hero: string) {
    view == hero && Layer(name) == ""
  }

  /** What stands before the last dot of the internal name of any other channel. */
  function Stem(name: string, view: string): string {
    if Layer(name) != "" then Layer(name) + "." + view
    else if LastDot(name) < 0 then view
    else view + "."
  }

  lemma Unlayered(name: string)
    requires Layer(name) == ""
    ensures LastDot(name) <= 0
    ensures name == if LastDot(name) < 0 then Suffix(name) else "." + Suffix(name)
  {
    NameParts(name);
  }

  /** Every other internal name is its stem, a dot and the channel's suffix. */
  lemma StemShape(name: string, view: string, hero: string)
    requires view != "" && !Bare(name, view, hero)
    ensures InternalName(name, view, hero) == Stem(name, view) + "." + Suffix(name)
  {
    if Layer(name) == "" {
      Unlayered(name);
      assert LastDot(name) >= 0 ==> view + "." + ("." + Suffix(name)) == (view + ".") + "." + Suffix(name);
    }
  }

  lemma InternalShape(name: string, view: string, hero: string)
    requires view != "" && !Bare(name, view, hero)
    ensures var x := InternalName(name, view, hero);
            LastDot(x) > 0 && Layer(x) == Stem(name, view) && Suffix(x) == Suffix(name)
  {
    StemShape(name, view, hero);
    NameParts(name);
    LastDotOf(Stem(name, view), Suffix(name));
  }

  lemma SplitAtEnd(a: string, v: string, b: string, w: string)
    requires a + "." + v == b + "." + w
    ensures |v| == |w| ==> a == b && v == w
    ensures |v| > |w| ==> EndsWith(v, "." + w)
  {
    var s := a + "." + v;
    if |v| == |w| {
      assert a == s[..|a|] && v == s[|a| + 1..];
    } else if |v| > |w| {
      assert v == s[|a| + 1..];
      assert v[|v| - |w| - 1..] == s[|s| - |w| - 1..] == "." + w;
    }
  }

  /** Equal stems of distinct views are a clash, in the order given or the other. */
  lemma EqualStems(n: string, v: string, m: string, w: string, hero: string)
    requires v != "" && w != "" && !Bare(n, v, hero) && !Bare(m, w, hero)
    requires Stem(n, v) == Stem(m, w) && v != w
    ensures Clash(v, w, hero) || Clash(w, v, hero)
  {
    if Layer(n) != "" && Layer(m) != "" {
      SplitAtEnd(Layer(n), v, Layer(m), w);
      SplitAtEnd(Layer(m), w, Layer(n), v);
    } else if Layer(n) != "" {
      StemOfLayer(Layer(n), v, m, w);
    } else if Layer(m) != "" {
      StemOfLayer(Layer(m), w, n, v);
    } else {
      SameDotted(v, w);
    }
  }

  lemma SameDotted(v: string, w: string)
    ensures v + "." == w + "." <==> v == w
  {
    assert (v + ".")[..|v|] == v && (w + ".")[..|w|] == w;
  }

  /** "l.w" as the stem of an unlayered channel of view `v`. */
  lemma StemOfLayer(l: string, w: string, n: string, v: string)
    requires l != "" && Layer(n) == "" && Stem(n, v) == l + "." + w
    ensures EndsWith(v, "." + w) || (|w| < |v| && EndsWith(v + ".", "." + w))
  {
    assert (l + "." + w)[|l|..] == "." + w;
  }

  lemma SameStemSameName(n: string, m: string, v: string)
    requires v != "" && (n == m || (Stem(n, v) == Stem(m, v) && Suffix(n) == Suffix(m)))
    ensures n == m
  {
    NameParts(n);
    NameParts(m);
    if Layer(n) != "" && Layer(m) != "" {
      SplitAtEnd(Layer(n), v, Layer(m), v);
    } else if Layer(n) == "" && Layer(m) == "" {
      Unlayered(n);
      Unlayered(m);
    } else {
      assert |Stem(n, v)| <= |v| + 1 || |Stem(m, v)| <= |v| + 1;
    }
  }

  /** Whether a channel is bare can be seen from its internal name, and so can the rest. */
  lemma SameInternalName(n: string, v: string, m: string, w: string, hero: string)
    requires v != "" && w != "" && InternalName(n, v, hero) == InternalName(m, w, hero)
    ensures (n == m && v == w) ||
            (!Bare(n, v, hero) && !Bare(m, w, hero) && Stem(n, v) == Stem(m, w) && Suffix(n) == Suffix(m))
  {
    if Bare(n, v, hero) {
      Unlayered(n);
    } else {
      InternalShape(n, v, hero);
    }
    if Bare(m, w, hero) {
      Unlayered(m);
    } else {
      InternalShape(m, w, hero);
    }
  }

  lemma ApartViewsDistinguish(views: set<string>, hero: string)
    requires Apart(views, hero)
    ensures Distinguishes(views, hero)
  {
    forall n, v, m, w | v in views && w in views && InternalName(n, v, hero) == InternalName(m, w, hero)
      ensures n == m && v == w
    {
      if v != "" && w != "" {
        SameInternalName(n, v, m, w, hero);
        if v == w {
          SameStemSameName(n, m, v);
        } else {
          EqualStems(n, v, m, w, hero);
        }
      }
    }
  }

  // ---------------------------------------------------------------------------------------------
  // A clash: two channels share a name
  // ---------------------------------------------------------------------------------------------

  predicate Shared(v: string, w: string, hero: string, n: string, m: string) {
    InternalName(n, v, hero) == InternalName(m, w, hero)
  }

  lemma LayeredName(layer: string, view: string, hero: string)
    requires layer != "" && view != ""
    ensures InternalName(layer + "." + "x", view, hero) == layer + "." + view + "." + "x"
  {
    LastDotOf(layer, "x");
  }

  lemma SplitEnd(v: string, w: string) returns (u: string)
    requires EndsWith(v, "." + w)
    ensures v == u + "." + w
  {
    u := v[..|v| - |w| - 1];
    assert v == u + ("." + w);
  }

  lemma Regroup(l: string, u: string, w: string)
    ensures l + "." + (u + "." + w) == (l + "." + u) + "." + w
  {
  }

  lemma EndShares(u: string, w: string, hero: string)
    requires w != ""
    ensures Shared(u + "." + w, w, hero, "l" + "." + "x", ("l" + "." + u) + "." + "x")
  {
    LayeredName("l", u + "." + w, hero);
    LayeredName("l" + "." + u, w, hero);
    Regroup("l", u, w);
  }

  lemma DotShares(w: string, hero: string)
    requires w != "" && w != hero && w + "." != hero
    ensures Shared(w + ".", w, hero, "x", "" + "." + "x")
  {
    NoDot("x");
    LastDotOf("", "x");
    assert (w + ".") + "." + "x" == w + "." + ("" + "." + "x");
  }

  lemma StemShares(v: string, l: string, w: string, hero: string)
    requires v != "" && w != "" && l != "" && v != hero && v + "." == l + "." + w
    ensures Shared(v, w, hero, "" + "." + "x", l + "." + "x")
  {
    LastDotOf("", "x");
    LayeredName(l, w, hero);
    assert v + "." + ("" + "." + "x") == (v + ".") + "." + "x";
  }

  lemma ClashShares(v: string, w: string, hero: string) returns (n: string, m: string)
    requires v != "" && w != "" && Clash(v, w, hero)
    ensures Shared(v, w, hero, n, m)
  {
    if EndsWith(v, "." + w) {
      var u := SplitEnd(v, w);
      n, m := "l" + "." + "x", ("l" + "." + u) + "." + "x";
      EndShares(u, w, hero);
    } else if v != hero && w != hero && v == w + "." {
      n, m := "x", "" + "." + "x";
      DotShares(w, hero);
    } else {
      var l := SplitEnd(v + ".", w);
      n, m := "" + "." + "x", l + "." + "x";
      StemShares(v, l, w, hero);
    }
  }

  /** An unnamed view leaves every name as it is, also those that other views produce. */
  lemma UnnamedShares(w: string, hero: string)
    ensures Shared("", w, hero, InternalName("x", w, hero), "x")
  {
  }

  /** The exact condition: internal names tell all channels of these views apart just when the views are apart. */
  lemma DistinguishesExactlyWhenApart(views: set<string>, hero: string)
    ensures Distinguishes(views, hero) <==> Apart(views, hero)
  {
    if Apart(views, hero) {
      ApartViewsDistinguish(views, hero);
    } else if "" in views && views != {""} {
      var w :| w in views && w != "";
      UnnamedShares(w, hero);
    } else {
      var v, w :| v in views && w in views && v != w && Clash(v, w, hero);
      var n, m := ClashShares(v, w, hero);
    }
  }

  /** Only a view with a dot in it clashes with a named one. */
  lemma ClashNeedsADot(v: string, w: string, hero: string)
    requires Clash(v, w, hero) && w != ""
    ensures !DotFree(v)
  {
    if EndsWith(v, "." + w) {
      assert v[|v| - |w| - 1] == ("." + w)[0];
    } else if |w| < |v| && EndsWith(v + ".", "." + w) {
      assert v[|v| - |w|] == ("." + w)[0];
    } else {
      assert v[|w|] == '.';
    }
  }

  /** With dot-free views, internal names are distinct exactly when "" is not mixed with named views. */
  lemma DistinguishesExactlyWhenUnmixed(views: set<string>, hero: string)
    requires forall v :: v in views ==> DotFree(v)
    ensures Distinguishes(views, hero) <==> ("" in views ==> views == {""})
  {
    DistinguishesExactlyWhenApart(views, hero);
    forall v, w | v in views && w in views && v != w && w != ""
      ensures !Clash(v, w, hero)
    {
      if Clash(v, w, hero) {
        ClashNeedsADot(v, w, hero);
      }
    }
  }
}
