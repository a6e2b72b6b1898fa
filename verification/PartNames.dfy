/**
 Channel names in `SplitChannels` (backend/include/OpenEXR/ImfPartHelper.h): the layer and suffix of
 a name, the internal name single-part mode gives a channel, and when that name can be undone.
 */
module PartNames {

  predicate DotFree(s: string) {
    '.' !in s
  }

  /** `name.rfind('.')`, or -1 where the source has npos. */
  function LastDot(s: string): (q: int)
    ensures -1 <= q < |s|
  {
    if s == [] then -1
    else if s[|s| - 1] == '.' then |s| - 1
    else LastDot(s[..|s| - 1])
  }

  /** It is the position of a dot, and no dot comes after it. */
  lemma {:induction false} LastDotIsLast(s: string)
    ensures LastDot(s) >= 0 ==> s[LastDot(s)] == '.'
    ensures DotFree(s[LastDot(s) + 1..])
  {
    if s != [] && s[|s| - 1] != '.' {
      var t := s[..|s| - 1];
      LastDotIsLast(t);
      assert s[LastDot(s) + 1..] == t[LastDot(t) + 1..] + [s[|s| - 1]];
    }
  }

  function Layer(name: string): string {
    if LastDot(name) < 0 then "" else name[..LastDot(name)]
  }

  function Suffix(name: string): string {
    if LastDot(name) < 0 then name else name[LastDot(name) + 1..]
  }

  /** The internal name of a channel in single-part mode. */
  function InternalName(name: string, view: string, hero: string): string {
    if view == "" then name
    else if Layer(name) == "" then
      if view == hero then name else view + "." + name
    else Layer(name) + "." + view + "." + Suffix(name)
  }

  // ---------------------------------------------------------------------------------------------
  // Undoing it
  // ---------------------------------------------------------------------------------------------

  lemma {:induction false} LastDotAt(a: string, b: string)
    requires DotFree(b)
    ensures LastDot(a + "." + b) == |a|
    decreases |b|
  {
    var s := a + "." + b;
    if b != [] {
      assert b[|b| - 1] in b && s[|s| - 1] == b[|b| - 1];
      assert s[..|s| - 1] == a + "." + b[..|b| - 1];
      LastDotAt(a, b[..|b| - 1]);
    }
  }

  /** The last dot is where the dot-free tail begins. */
  lemma LastDotOf(a: string, b: string)
    requires DotFree(b)
    ensures LastDot(a + "." + b) == |a|
    ensures Layer(a + "." + b) == a && Suffix(a + "." + b) == b
  {
    LastDotAt(a, b);
    assert (a + "." + b)[..|a|] == a && (a + "." + b)[|a| + 1..] == b;
  }

  lemma NoDot(s: string)
    requires DotFree(s)
    ensures LastDot(s) == -1 && Layer(s) == "" && Suffix(s) == s
  {
    LastDotIsLast(s);
    assert LastDot(s) < 0;
  }

  /** A name is its layer, a dot and its suffix, if it has a dot at all. */
  lemma NameParts(name: string)
    ensures DotFree(Suffix(name))
    ensures LastDot(name) < 0 ==> DotFree(name)
    ensures LastDot(name) >= 0 ==> name == Layer(name) + "." + Suffix(name)
  {
    var q := LastDot(name);
    LastDotIsLast(name);
    if q < 0 {
      assert name[q + 1..] == name;
    } else {
      assert name == name[..q] + [name[q]] + name[q + 1..];
    }
  }

  /** The internal names spelled out, by how the name is put together. */
  lemma InternalNamesSpelledOut(layer: string, suffix: string, view: string, hero: string)
    requires DotFree(suffix)
    ensures InternalName(suffix, view, hero) == if view == "" || view == hero then suffix else view + "." + suffix
    ensures layer != "" ==>
              InternalName(layer + "." + suffix, view, hero) ==
              if view == "" then layer + "." + suffix else layer + "." + view + "." + suffix
    ensures InternalName("." + suffix, view, hero) ==
            if view == "" || view == hero then "." + suffix else view + "." + ("." + suffix)
  {
    NoDot(suffix);
    LastDotOf(layer, suffix);
    LastDotOf("", suffix);
    assert "" + "." + suffix == "." + suffix;
  }

  /** The channel an internal name came from, given the hero view. */
  function Recover(internal: string, hero: string): (string, string) {
    var outer, suffix := Layer(internal), Suffix(internal);
    if LastDot(internal) <= 0 then (internal, hero)          // "x" or ".x": a hero channel
    else if LastDot(outer) < 0 then (suffix, outer)          // "view.x"
    else if Suffix(outer) == "" then ("." + suffix, Layer(outer))  // "view..x"
    else (Layer(outer) + "." + suffix, Suffix(outer))        // "layer.view.x"
  }

  lemma RecoverLayered(layer: string, view: string, suffix: string, hero: string)
    requires layer != "" && view != "" && DotFree(view) && DotFree(suffix)
    ensures Recover(layer + "." + view + "." + suffix, hero) == (layer + "." + suffix, view)
  {
    LastDotOf(layer + "." + view, suffix);
    LastDotOf(layer, view);
  }

  lemma RecoverNonHero(view: string, name: string, hero: string)
    requires view != "" && DotFree(view) && Layer(name) == ""
    ensures Recover(view + "." + name, hero) == (name, view)
  {
    NameParts(name);
    if LastDot(name) < 0 {
      LastDotOf(view, name);
      NoDot(view);
    } else {
      assert name == "." + Suffix(name);
      assert view + "." + name == (view + ".") + "." + Suffix(name);
      LastDotOf(view + ".", Suffix(name));
      assert view + "." == view + "." + "";
      LastDotOf(view, "");
    }
  }

  /** The pair can be read back from the internal name and the hero view, if views are non-empty and dot-free. */
  lemma RecoverInvertsInternalName(name: string, view: string, hero: string)
    requires view != "" && DotFree(view)
    ensures Recover(InternalName(name, view, hero), hero) == (name, view)
  {
    NameParts(name);
    if Layer(name) != "" {
      RecoverLayered(Layer(name), view, Suffix(name), hero);
    } else if view != hero {
      RecoverNonHero(view, name, hero);
    }
  }
}
