/** Angle arithmetic of Preview (apps/preview/lib/reorder.js): JavaScript's truncated remainder and
    the rotation table, in which a page without an entry stands at 0.

    An angle is normalised into 0..359 whatever was added to it, and turning a page twice is turning it
    once by the sum. A rotation that comes back to 0 leaves the table, so four quarter turns of a page
    restore the table itself, and a document with no page turned has an empty one. */
module Angles {

  // JavaScript's `%`: the result takes the sign of the dividend.
  function Rem(a: int, b: int): int
    requires b > 0
  {
    if a >= 0 then a % b else -((-a) % b)
  }

  // `((a % 360) + 360) % 360`.
  function Normal(a: int): (r: int)
    ensures r == a % 360
  {
    NormalIsMod(a);
    Rem(Rem(a, 360) + 360, 360)
  }

  lemma ModIs(a: int, q: int, r: int)
    requires a == 360 * q + r && 0 <= r < 360
    ensures a % 360 == r
  {}

  lemma NormalIsMod(a: int)
    ensures Rem(Rem(a, 360) + 360, 360) == a % 360
  {
    if a >= 0 {
      var r := a % 360;
      ModIs(r + 360, 1, r);
    } else {
      var n := -a;
      var q, r := n / 360, n % 360;
      assert n == 360 * q + r;
      assert Rem(a, 360) == -r;
      if r == 0 {
        ModIs(360, 1, 0);
        ModIs(a, -q, 0);
      } else {
        ModIs(360 - r, 0, 360 - r);
        ModIs(a, -q - 1, 360 - r);
      }
    }
  }

  function Plus(a: int, b: int): int {
    (a + b) % 360
  }

  type Rotations = map<nat, int>

  function Entry(rotations: Rotations, page: nat): int {
    if page in rotations then rotations[page] else 0
  }

  function RotationOf(rotations: Rotations, page: nat): (r: int)
    ensures 0 <= r < 360
  {
    Normal(Entry(rotations, page))
  }

  // A rotation that comes back to 0 is deleted.
  function Put(rotations: Rotations, page: nat, deg: int): Rotations {
    if deg == 0 then map k | k in rotations && k != page :: rotations[k] else rotations[page := deg]
  }

  function RotateBy(rotations: Rotations, page: nat, delta: int): Rotations {
    Put(rotations, page, Normal(Entry(rotations, page) + delta))
  }

  lemma PlusPlus(a: int, b: int, c: int)
    ensures Plus(Plus(a, b), c) == Plus(a, b + c) == Plus(a, Plus(b, c))
  {
    ModAdds(a + b, c);
    ModAdds(b + c, a);
  }

  lemma ModAdds(a: int, b: int)
    ensures (a % 360 + b) % 360 == (a + b) % 360
  {
    assert a == 360 * (a / 360) + a % 360;
    assert a + b == 360 * (a / 360) + (a % 360 + b);
  }

  lemma EntryOfPut(rotations: Rotations, page: nat, deg: int, other: nat)
    ensures Entry(Put(rotations, page, deg), other) == if other == page then deg else Entry(rotations, other)
  {}

  lemma PutTwice(rotations: Rotations, page: nat, a: int, b: int)
    ensures Put(Put(rotations, page, a), page, b) == Put(rotations, page, b)
  {}

  /** Turning a page adds to its own rotation, modulo a full turn, and to no other's. */
  lemma RotationAdds(rotations: Rotations, page: nat, delta: int, other: nat)
    ensures RotationOf(RotateBy(rotations, page, delta), other)
         == if other == page then (RotationOf(rotations, page) + delta) % 360 else RotationOf(rotations, other)
  {
    EntryOfPut(rotations, page, Normal(Entry(rotations, page) + delta), other);
    ModAdds(Entry(rotations, page), delta);
  }

  lemma RotateTwice(rotations: Rotations, page: nat, a: int, b: int)
    ensures RotateBy(RotateBy(rotations, page, a), page, b) == RotateBy(rotations, page, a + b)
  {
    var at := Entry(rotations, page);
    EntryOfPut(rotations, page, Normal(at + a), page);
    ModAdds(at + a, b);
    PutTwice(rotations, page, Normal(at + a), Normal(at + a + b));
  }

  /** Four quarter turns leave the table as it was, not a table with a zero in it. */
  lemma FourTapsUndo(rotations: Rotations, page: nat)
    requires forall k | k in rotations :: 0 < rotations[k] < 360
    ensures RotateBy(RotateBy(RotateBy(RotateBy(rotations, page, 90), page, 90), page, 90), page, 90) == rotations
  {
    RotateTwice(rotations, page, 90, 90);
    RotateTwice(rotations, page, 180, 90);
    RotateTwice(rotations, page, 270, 90);
    FullTurn(Entry(rotations, page));
  }

  lemma FullTurn(at: int)
    requires 0 <= at < 360
    ensures Normal(at + 360) == at
  {}
}
