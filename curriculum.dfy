/**
 * The curriculum the LMS hands the course player: an ordered list of
 * sections, each of which may carry an ordered `materials` list.  Both the
 * "continue" scan and the lesson numbering visit materials in this order.
 */
module Curriculum {
  import opened Php

  /** One curriculum item (lesson, quiz or assignment) as the player reads it. */
  datatype Material = Material(postId: int, title: string)

  /** A section; `materials` is `None` when the `materials` key is not set. */
  datatype Section = Section(title: string, materials: Option<seq<Material>>)

  /** `isset( $section['materials'] ) ? $section['materials'] : []`. */
  function Materials(s: Section): seq<Material>
  {
    if s.materials.Some? then s.materials.value else []
  }

  /** All materials of all sections, in curriculum order. */
  function Flatten(c: seq<Section>): seq<Material>
  {
    if c == [] then [] else Materials(c[0]) + Flatten(c[1..])
  }

  /** A one-section curriculum flattens to that section's materials. */
  lemma FlattenSingle(s: Section)
    ensures Flatten([s]) == Materials(s)
  {
    assert [s][1..] == [];
  }

  /** Flattening distributes over concatenation of curricula. */
  lemma {:induction false} FlattenAppend(a: seq<Section>, b: seq<Section>)
    ensures Flatten(a + b) == Flatten(a) + Flatten(b)
  {
    if a == [] {
      assert a + b == b;
    } else {
      assert (a + b)[1..] == a[1..] + b;
      FlattenAppend(a[1..], b);
    }
  }

  /** The flattened curriculum seen around one section. */
  lemma {:induction false} FlattenAround(c: seq<Section>, si: nat)
    requires si < |c|
    ensures Flatten(c) == Flatten(c[..si]) + Materials(c[si]) + Flatten(c[si + 1..])
    ensures Flatten(c[..si + 1]) == Flatten(c[..si]) + Materials(c[si])
  {
    assert c == c[..si] + c[si..];
    FlattenAppend(c[..si], c[si..]);
    assert c[si..][1..] == c[si + 1..];
    assert c[..si + 1] == c[..si] + [c[si]];
    FlattenAppend(c[..si], [c[si]]);
    assert [c[si]][1..] == [];
  }
}
