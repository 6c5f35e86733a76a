/**
  The keybinding map of src/renderer/Shortcuts/Shortcuts.js and the `keydown` handler that composes a
  pressed combination into a string such as "ctrl+shift+f" and runs the callback bound to it. A
  callback is represented by a number naming it. `toLowerCase` is modelled by the ASCII fold of
  `Text.Lower`.
*/
module Shortcuts {
  import opened Wrappers
  import opened Text

  /** The parts of a `KeyboardEvent` the handler reads. */
  datatype KeyEvent = KeyEvent(tagName: string, ctrlKey: bool, shiftKey: bool, altKey: bool, key: string)

  /** The held modifiers in the order `handleKeyDown` pushes them: ctrl, shift, alt. */
  function Modifiers(e: KeyEvent): seq<string> {
    (if e.ctrlKey then ["ctrl"] else []) + (if e.shiftKey then ["shift"] else []) + (if e.altKey then ["alt"] else [])
  }

  /** The `keys` array of `handleKeyDown`: the modifiers, then the lowercased key. */
  function ComboKeys(e: KeyEvent): seq<string> {
    Modifiers(e) + [Lower(e.key)]
  }

  /** `keys.join('+')` */
  function ShortcutOf(e: KeyEvent): string {
    Join(ComboKeys(e), "+")
  }

  /** The module-level `shortcuts` object. */
  class Keymap {
    var shortcuts: map<string, nat>

    constructor()
      ensures shortcuts == map[]
    {
      shortcuts := map[];
    }

    /** `add(callback, ...keybindings)`: every given string bound to the callback, replacing a binding. */
    method Add(callback: nat, keybindings: seq<string>)
      modifies this
      ensures forall k :: k in shortcuts <==> k in old(shortcuts) || k in keybindings
      ensures forall k :: k in keybindings ==> shortcuts[k] == callback
      ensures forall k :: k in old(shortcuts) && k !in keybindings ==> shortcuts[k] == old(shortcuts)[k]
    {
      for i := 0 to |keybindings|
        invariant forall k :: k in shortcuts <==> k in old(shortcuts) || k in keybindings[..i]
        invariant forall k :: k in keybindings[..i] ==> shortcuts[k] == callback
        invariant forall k :: k in old(shortcuts) && k !in keybindings[..i] ==> shortcuts[k] == old(shortcuts)[k]
      {
        assert keybindings[..i + 1] == keybindings[..i] + [keybindings[i]];
        shortcuts := shortcuts[keybindings[i] := callback];
      }
      assert keybindings[..|keybindings|] == keybindings;
    }

    /** `remove(...keybindings)`: exactly the given strings unbound; absent ones are ignored. */
    method Remove(keybindings: seq<string>)
      modifies this
      ensures forall k :: k in shortcuts <==> k in old(shortcuts) && k !in keybindings
      ensures forall k :: k in shortcuts ==> shortcuts[k] == old(shortcuts)[k]
    {
      for i := 0 to |keybindings|
        invariant forall k :: k in shortcuts <==> k in old(shortcuts) && k !in keybindings[..i]
        invariant forall k :: k in shortcuts ==> shortcuts[k] == old(shortcuts)[k]
      {
        assert keybindings[..i + 1] == keybindings[..i] + [keybindings[i]];
        shortcuts := shortcuts - {keybindings[i]};
      }
      assert keybindings[..|keybindings|] == keybindings;
    }

    /**
      `handleKeyDown(event)`: the callback it runs, if any; the default action is prevented exactly
      when one runs. Key presses in an INPUT element are ignored.
    */
    method HandleKeyDown(e: KeyEvent) returns (callback: Option<nat>, preventDefault: bool)
      ensures e.tagName == "INPUT" ==> callback.None?
      ensures e.tagName != "INPUT" ==> (callback.Some? <==> ShortcutOf(e) in shortcuts)
      ensures callback.Some? ==> callback.value == shortcuts[ShortcutOf(e)]
      ensures preventDefault <==> callback.Some?
    {
      callback, preventDefault := None, false;
      if e.tagName == "INPUT" {
        return;
      }
      var keys: seq<string> := [];
      if e.ctrlKey {
        keys := keys + ["ctrl"];
      }
      if e.shiftKey {
        keys := keys + ["shift"];
      }
      if e.altKey {
        keys := keys + ["alt"];
      }
      keys := keys + [Lower(e.key)];
      assert keys == ComboKeys(e);
      var shortcut := Join(keys, "+");
      if shortcut in shortcuts {
        callback, preventDefault := Some(shortcuts[shortcut]), true;
      }
    }
  }
}

module ShortcutProperties {
  import opened Text
  import opened Shortcuts

  /** Each string followed by a '+'. */
  function Prefixes(mods: seq<string>): string {
    if |mods| == 0 then "" else mods[0] + "+" + Prefixes(mods[1..])
  }

  lemma {:induction false} JoinWithKey(mods: seq<string>, key: string)
    ensures Join(mods + [key], "+") == Prefixes(mods) + key
  {
    if |mods| == 0 {
      assert mods + [key] == [key];
    } else {
      JoinWithKey(mods[1..], key);
      assert (mods + [key])[1..] == mods[1..] + [key];
    }
  }

  lemma {:induction false} PrefixesAppend(a: seq<string>, b: seq<string>)
    ensures Prefixes(a + b) == Prefixes(a) + Prefixes(b)
  {
    if |a| == 0 {
      assert a + b == b;
    } else {
      var head := a[0] + "+";
      assert (a + b)[0] == a[0] && (a + b)[1..] == a[1..] + b;
      PrefixesAppend(a[1..], b);
      calc {
        Prefixes(a + b);
        head + Prefixes(a[1..] + b);
        head + (Prefixes(a[1..]) + Prefixes(b));
        (head + Prefixes(a[1..])) + Prefixes(b);
      }
    }
  }

  lemma PrefixOne(m: string)
    ensures Prefixes([m]) == m + "+"
  {
    assert [m][1..] == [];
  }

  /** The shortcut string spelled out: each held modifier with a '+', then the lowercased key. */
  lemma ShortcutSpelling(e: KeyEvent)
    ensures ShortcutOf(e) == ModifierPrefix(e.ctrlKey, e.shiftKey, e.altKey) + Lower(e.key)
  {
    var c: seq<string> := if e.ctrlKey then ["ctrl"] else [];
    var s: seq<string> := if e.shiftKey then ["shift"] else [];
    var a: seq<string> := if e.altKey then ["alt"] else [];
    JoinWithKey(Modifiers(e), Lower(e.key));
    PrefixesAppend(c + s, a);
    PrefixesAppend(c, s);
    PrefixOne("ctrl");
    PrefixOne("shift");
    PrefixOne("alt");
    assert Prefixes(c) == if e.ctrlKey then "ctrl+" else "";
    assert Prefixes(s) == if e.shiftKey then "shift+" else "";
    assert Prefixes(a) == if e.altKey then "alt+" else "";
    assert Prefixes(Modifiers(e)) == ModifierPrefix(e.ctrlKey, e.shiftKey, e.altKey);
  }

  /** The modifier part of a shortcut: "ctrl+", "shift+", "alt+" as held, in that order. */
  function ModifierPrefix(ctrl: bool, shift: bool, alt: bool): string {
    (if ctrl then "ctrl+" else "") + (if shift then "shift+" else "") + (if alt then "alt+" else "")
  }

  /**
    A key whose name holds no '+' is told apart from the modifiers: two presses compose the same
    shortcut exactly when they hold the same modifiers and their keys lowercase alike.
  */
  lemma ShortcutDeterminesCombo(e1: KeyEvent, e2: KeyEvent)
    requires '+' !in Lower(e1.key) && '+' !in Lower(e2.key)
    ensures ShortcutOf(e1) == ShortcutOf(e2) <==>
      e1.ctrlKey == e2.ctrlKey && e1.shiftKey == e2.shiftKey && e1.altKey == e2.altKey && Lower(e1.key) == Lower(e2.key)
  {
    ShortcutSpelling(e1);
    ShortcutSpelling(e2);
    if ShortcutOf(e1) == ShortcutOf(e2) {
      PrefixEndsWithPlus(e1.ctrlKey, e1.shiftKey, e1.altKey);
      PrefixEndsWithPlus(e2.ctrlKey, e2.shiftKey, e2.altKey);
      SplitAtLastPlus(ModifierPrefix(e1.ctrlKey, e1.shiftKey, e1.altKey), Lower(e1.key),
                      ModifierPrefix(e2.ctrlKey, e2.shiftKey, e2.altKey), Lower(e2.key));
      PrefixInjective(e1.ctrlKey, e1.shiftKey, e1.altKey, e2.ctrlKey, e2.shiftKey, e2.altKey);
    }
  }

  lemma PrefixEndsWithPlus(ctrl: bool, shift: bool, alt: bool)
    ensures var p := ModifierPrefix(ctrl, shift, alt);
      p == "" || p[|p| - 1] == '+'
  {
  }

  /** Different modifier sets give different prefixes. */
  lemma PrefixInjective(c1: bool, s1: bool, a1: bool, c2: bool, s2: bool, a2: bool)
    requires ModifierPrefix(c1, s1, a1) == ModifierPrefix(c2, s2, a2)
    ensures c1 == c2 && s1 == s2 && a1 == a2
  {
  }

  /** A prefix that is empty or ends with '+', followed by a piece without '+', splits one way only. */
  lemma SplitAtLastPlus(p1: string, k1: string, p2: string, k2: string)
    requires p1 == "" || p1[|p1| - 1] == '+'
    requires p2 == "" || p2[|p2| - 1] == '+'
    requires '+' !in k1 && '+' !in k2
    requires p1 + k1 == p2 + k2
    ensures p1 == p2 && k1 == k2
  {
    if |p1| < |p2| {
      RightOfConcat(p1, k1, |p2| - 1);
      assert false;
    } else if |p2| < |p1| {
      RightOfConcat(p2, k2, |p1| - 1);
      assert false;
    } else {
      assert p1 == (p1 + k1)[..|p1|] && p2 == (p2 + k2)[..|p2|];
      assert k1 == (p1 + k1)[|p1|..] && k2 == (p2 + k2)[|p2|..];
    }
  }

  lemma RightOfConcat(a: string, b: string, i: int)
    ensures |a| <= i < |a + b| ==> (a + b)[i] == b[i - |a|] && b[i - |a|] in b
  {
  }
}
