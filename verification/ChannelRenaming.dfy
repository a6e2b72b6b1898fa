/**
 `renameChannelsInMap` (backend/include/OpenEXR/ImfImageChannelRenaming.h): all channels of an image
 are renamed at once by rebuilding the map.
 */
module ChannelRenaming {
  import opened StringOrder

  type Renaming = map<string, string>

  function NewName(r: Renaming, name: string): string {
    if name in r then r[name] else name
  }

  function NewNames(r: Renaming, names: set<string>): set<string> {
    set n | n in names :: NewName(r, n)
  }

  predicate CollisionFree(r: Renaming, names: set<string>) {
    forall a, b :: a in names && b in names && NewName(r, a) == NewName(r, b) ==> a == b
  }

  /** Of the channels that end up called `n`, the last in name order: the one whose write stands. */
  predicate LastNamed(r: Renaming, names: set<string>, n: string, a: string) {
    && a in names && NewName(r, a) == n
    && (forall b :: b in names && NewName(r, b) == n && b != a ==> Before(b, a))
  }

  /** What rebuilding in name order yields, collisions or not. */
  ghost predicate Rebuilt<C(!new)>(r: Renaming, channels: map<string, C>, renamed: map<string, C>) {
    && renamed.Keys == NewNames(r, channels.Keys)
    && (forall n, a :: LastNamed(r, channels.Keys, n, a) ==> n in renamed && renamed[n] == channels[a])
  }

  /** Writing the next channel in order keeps the description. */
  lemma WriteNext<C(!new)>(r: Renaming, channels: map<string, C>, done: set<string>, name: string,
                           renamed: map<string, C>)
    requires done <= channels.Keys && name in channels && name !in done
    requires forall a :: a in done ==> Before(a, name)
    requires forall n, a :: LastNamed(r, done, n, a) ==> n in renamed && renamed[n] == channels[a]
    ensures forall n, a :: LastNamed(r, done + {name}, n, a) ==>
              var renamed' := renamed[NewName(r, name) := channels[name]];
              n in renamed' && renamed'[n] == channels[a]
  {
    forall n, a | LastNamed(r, done + {name}, n, a)
      ensures n == NewName(r, name) ==> a == name
      ensures n != NewName(r, name) ==> LastNamed(r, done, n, a)
    {
      Trichotomy(a, name);
    }
  }

  /** The loop visits the old map in name order, and a later write to the same new name replaces an earlier one. */
  method RenameChannelsInMap<C(!new)>(r: Renaming, channels: map<string, C>) returns (renamed: map<string, C>)
    ensures Rebuilt(r, channels, renamed)
  {
    renamed := map[];
    var todo := channels.Keys;
    while todo != {}
      invariant todo <= channels.Keys
      invariant forall a, b :: a in channels.Keys - todo && b in todo ==> Before(a, b)
      invariant renamed.Keys == NewNames(r, channels.Keys - todo)
      invariant forall n, a :: LastNamed(r, channels.Keys - todo, n, a) ==> n in renamed && renamed[n] == channels[a]
      decreases todo
    {
      var name := Least(todo);
      ghost var done := channels.Keys - todo;
      assert channels.Keys - (todo - {name}) == done + {name};
      WriteNext(r, channels, done, name, renamed);
      assert NewNames(r, done + {name}) == NewNames(r, done) + {NewName(r, name)};
      var newName := if name in r then r[name] else name;
      renamed := renamed[newName := channels[name]];
      todo := todo - {name};
    }
    assert channels.Keys - todo == channels.Keys;
  }

  /** The map a caller passes by reference. */
  class ChannelMap<C(!new)> {
    var channels: map<string, C>

    constructor (channels: map<string, C>)
      ensures this.channels == channels
    {
      this.channels := channels;
    }

    method Rename(r: Renaming)
      modifies this
      ensures Rebuilt(r, old(channels), channels)
    {
      channels := RenameChannelsInMap(r, channels);
    }
  }

  // ---------------------------------------------------------------------------------------------
  // Collision-free renamings
  // ---------------------------------------------------------------------------------------------

  /** Without collisions every channel is found under its new name. */
  lemma EveryChannelIsMoved<C(!new)>(r: Renaming, channels: map<string, C>, renamed: map<string, C>, a: string)
    requires Rebuilt(r, channels, renamed) && CollisionFree(r, channels.Keys) && a in channels
    ensures NewName(r, a) in renamed && renamed[NewName(r, a)] == channels[a]
  {
    assert LastNamed(r, channels.Keys, NewName(r, a), a);
  }

  /** Name by name: a channel the renaming mentions is at its new name, any other stays where it was. */
  lemma MentionedMoveOthersStay<C(!new)>(r: Renaming, channels: map<string, C>, renamed: map<string, C>)
    requires Rebuilt(r, channels, renamed)
    requires forall a, b :: a in channels && b in channels && a != b ==>
               (if a in r then r[a] else a) != (if b in r then r[b] else b)
    ensures forall a :: a in channels && a in r ==> r[a] in renamed && renamed[r[a]] == channels[a]
    ensures forall a :: a in channels && a !in r ==> a in renamed && renamed[a] == channels[a]
    ensures forall n :: n in renamed ==> (n in channels && n !in r) || exists a :: a in channels && a in r && r[a] == n
  {
    assert CollisionFree(r, channels.Keys);
    forall a | a in channels
      ensures var n := if a in r then r[a] else a; n in renamed && renamed[n] == channels[a]
    {
      EveryChannelIsMoved(r, channels, renamed, a);
    }
    forall n | n in renamed && !(n in channels && n !in r)
      ensures exists a :: a in channels && a in r && r[a] == n
    {
      var a :| a in channels.Keys && NewName(r, a) == n;
      assert a in r;
    }
  }

  /** With collisions too: whatever ends up under a name was called that, or was renamed to it. */
  lemma NothingElseAppears<C(!new)>(r: Renaming, channels: map<string, C>, renamed: map<string, C>, n: string)
    requires Rebuilt(r, channels, renamed) && n in renamed
    ensures exists a :: a in channels && renamed[n] == channels[a] && (if a in r then r[a] == n else a == n)
  {
    var a := LastNamedExists(r, channels.Keys, n);
    assert a in channels && renamed[n] == channels[a];
  }

  /** Of channels that collide, the one whose old name comes last, character by character, is kept. */
  lemma CollisionKeepsTheLast<C(!new)>(r: Renaming, channels: map<string, C>, renamed: map<string, C>,
                                       n: string, b: string)
    requires Rebuilt(r, channels, renamed) && b in channels && n == (if b in r then r[b] else b)
    requires forall a :: a in channels && a != b && n == (if a in r then r[a] else a) ==>
               exists i: nat :: DifferAt(a, b, i)
    ensures n in renamed && renamed[n] == channels[b]
  {
    forall a | a in channels && a != b && NewName(r, a) == n
      ensures Before(a, b)
    {
      BeforeIsLexicographic(a, b);
    }
    assert LastNamed(r, channels.Keys, n, b);
  }

  /** The empty renaming changes nothing. */
  lemma EmptyRenamingKeepsAll<C(!new)>(channels: map<string, C>, renamed: map<string, C>)
    requires Rebuilt(map[], channels, renamed)
    ensures renamed == channels
  {
    MentionedMoveOthersStay(map[], channels, renamed);
  }

  lemma {:induction false} ImageCard(r: Renaming, names: set<string>)
    ensures |NewNames(r, names)| <= |names|
    ensures |NewNames(r, names)| == |names| <==> CollisionFree(r, names)
  {
    if x :| x in names {
      var rest := names - {x};
      ImageCard(r, rest);
      assert NewNames(r, names) == NewNames(r, rest) + {NewName(r, x)};
      if NewName(r, x) in NewNames(r, rest) {
        var y :| y in rest && NewName(r, y) == NewName(r, x);
        assert !CollisionFree(r, names);
      } else {
        assert CollisionFree(r, names) <==> CollisionFree(r, rest);
      }
    }
  }

  /** The number of channels is kept exactly by the collision-free renamings; otherwise channels are lost. */
  lemma NoChannelLostExactlyWhenCollisionFree<C(!new)>(r: Renaming, channels: map<string, C>, renamed: map<string, C>)
    requires Rebuilt(r, channels, renamed)
    ensures |renamed| <= |channels|
    ensures |renamed| == |channels| <==> CollisionFree(r, channels.Keys)
  {
    ImageCard(r, channels.Keys);
    assert |renamed| == |renamed.Keys| && |channels| == |channels.Keys|;
  }

  /** The renaming that undoes `r` on the given channels. */
  ghost function Inverse(r: Renaming, names: set<string>): Renaming
    requires CollisionFree(r, names)
  {
    map a | a in names :: NewName(r, a) := a
  }

  lemma InverseNames(r: Renaming, names: set<string>)
    requires CollisionFree(r, names)
    ensures forall a :: a in names ==> NewName(Inverse(r, names), NewName(r, a)) == a
    ensures NewNames(Inverse(r, names), NewNames(r, names)) == names
    ensures CollisionFree(Inverse(r, names), NewNames(r, names))
  {
    var back := Inverse(r, names);
    forall a | a in names
      ensures NewName(back, NewName(r, a)) == a
    {
      assert NewName(r, a) in back;
    }
    forall a | a in names
      ensures a in NewNames(back, NewNames(r, names))
    {
      assert NewName(r, a) in NewNames(r, names);
    }
  }

  /** Swaps, cycles and all: renaming by the inverse restores the map. */
  lemma RenamingIsUndone<C(!new)>(r: Renaming, channels: map<string, C>, renamed: map<string, C>,
                                  restored: map<string, C>)
    requires CollisionFree(r, channels.Keys) && Rebuilt(r, channels, renamed)
    requires Rebuilt(Inverse(r, channels.Keys), renamed, restored)
    ensures restored == channels
  {
    var names, back := channels.Keys, Inverse(r, channels.Keys);
    InverseNames(r, names);
    forall a | a in channels
      ensures a in restored && restored[a] == channels[a]
    {
      EveryChannelIsMoved(r, channels, renamed, a);
      EveryChannelIsMoved(back, renamed, restored, NewName(r, a));
    }
    assert restored.Keys == names;
  }

  lemma {:induction false} LastNamedExists(r: Renaming, names: set<string>, n: string) returns (a: string)
    requires n in NewNames(r, names)
    ensures LastNamed(r, names, n, a)
    decreases names
  {
    var x :| x in names && NewName(r, x) == n;
    if n in NewNames(r, names - {x}) {
      a := LastNamedExists(r, names - {x}, n);
      Trichotomy(x, a);
      if Before(a, x) {
        forall b | b in names && NewName(r, b) == n && b != x
          ensures Before(b, x)
        {
          if b != a {
            Transitive(b, a, x);
          }
        }
        a := x;
      }
    } else {
      a := x;
      assert forall b :: b in names && b != x ==> NewName(r, b) in NewNames(r, names - {x});
    }
  }

  /** The description leaves nothing open, with or without collisions. */
  lemma RebuiltIsUnique<C(!new)>(r: Renaming, channels: map<string, C>, one: map<string, C>, two: map<string, C>)
    requires Rebuilt(r, channels, one) && Rebuilt(r, channels, two)
    ensures one == two
  {
    forall n | n in one
      ensures n in two && one[n] == two[n]
    {
      var a := LastNamedExists(r, channels.Keys, n);
    }
  }
}
