/**
 The composite key under which the speaker/session mirror table is matched:
 the speaker row id, the session row id and the role, joined with `_`.
 */
module MirrorKeys {

  const Separator: char := '_'

  /** `f"{speaker_id}_{session_id}_{role}"` */
  function Key(speaker: string, session: string, role: string): string
  {
    speaker + [Separator] + session + [Separator] + role
  }

  /** In `a + "_" + r` with no separator in `a`, the first separator stands at position `|a|`. */
  lemma FirstSeparatorAt(a: string, r: string)
    requires Separator !in a
    ensures (a + [Separator] + r)[|a|] == Separator
    ensures forall j :: 0 <= j < |a| ==> (a + [Separator] + r)[j] != Separator
  {
  }

  /** Splitting at the first separator recovers the part before it, when that part holds no separator. */
  lemma SplitAtFirstSeparator(a1: string, r1: string, a2: string, r2: string)
    requires Separator !in a1 && Separator !in a2
    requires a1 + [Separator] + r1 == a2 + [Separator] + r2
    ensures a1 == a2 && r1 == r2
  {
    var s := a1 + [Separator] + r1;
    FirstSeparatorAt(a1, r1);
    FirstSeparatorAt(a2, r2);
    assert |a1| == |a2|;
    assert a1 == s[..|a1|];
    assert a2 == s[..|a2|];
    assert r1 == s[|a1| + 1..];
    assert r2 == s[|a2| + 1..];
  }

  /**
   When neither id contains the separator, the key determines the triple:
   two relationships share a key exactly when they share speaker, session and role.
   */
  lemma KeyInjective(sp1: string, se1: string, ro1: string, sp2: string, se2: string, ro2: string)
    requires Separator !in sp1 && Separator !in se1 && Separator !in sp2 && Separator !in se2
    ensures Key(sp1, se1, ro1) == Key(sp2, se2, ro2) <==> sp1 == sp2 && se1 == se2 && ro1 == ro2
  {
    if Key(sp1, se1, ro1) == Key(sp2, se2, ro2) {
      assert Key(sp1, se1, ro1) == sp1 + [Separator] + (se1 + [Separator] + ro1);
      assert Key(sp2, se2, ro2) == sp2 + [Separator] + (se2 + [Separator] + ro2);
      SplitAtFirstSeparator(sp1, se1 + [Separator] + ro1, sp2, se2 + [Separator] + ro2);
      SplitAtFirstSeparator(se1, ro1, se2, ro2);
    }
  }

  /** Without that condition two different triples can share a key. */
  lemma KeyCollision()
    ensures Key("rec_1", "x", "Speaking") == Key("rec", "1_x", "Speaking")
  {
  }
}
