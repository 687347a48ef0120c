/** The entity record of the engine and its collision profile. */
module GameObjects {
  import opened Wrappers

  /** Entities are compared by identity in the engine; here an identity is the id the game assigns. */
  type Id = nat

  /** A grid position as (row, column). */
  datatype Pos = Pos(y: int, x: int)

  /** A recorded position: `None` while the entity has not been placed. */
  type Key = Option<Pos>

  /** The collision profile of an entity. `mass` and `fixed` are carried but never consulted. */
  datatype Collision = Collision(collider: bool, rigidbody: bool, layer: int, mass: int, fixed: bool)

  /** `Collision()` with every field at its declared default. */
  function DefaultCollision(): (c: Collision)
    ensures !c.collider && !c.rigidbody && c.layer == 0 && c.mass == 1 && !c.fixed
  {
    Collision(false, false, 0, 1, false)
  }

  /** The fields of a game object that the core reads or writes; `name` is the object's label. */
  datatype GameObject = GameObject(id: Option<Id>, name: string, position: Key, collision: Collision)

  /** A game object as its constructor leaves it: the game has not yet given it an id or a place. */
  function NewGameObject(name: string, profile: Collision): (g: GameObject)
    ensures g.id == None && g.position == None
    ensures g.name == name && g.collision == profile
  {
    GameObject(None, name, None, profile)
  }

  /** The target of a relative move: the current position shifted by the delta, row and column apiece. */
  function RelTarget(p: Pos, delta: Pos): (t: Pos)
    ensures t.y - p.y == delta.y && t.x - p.x == delta.x
  {
    Pos(p.y + delta.y, p.x + delta.x)
  }

  /** The decimal digits of a natural number, most significant first, as `str` writes them. */
  function NatString(n: nat): (s: string)
    ensures |s| >= 1
    ensures forall i :: 0 <= i < |s| ==> '0' <= s[i] <= '9'
    ensures n >= 10 ==> s[0] != '0'
    decreases n
  {
    if n < 10 then [Digit(n)]
    else NatString(n / 10) + [Digit(n % 10)]
  }

  /** The character of one decimal digit. */
  function Digit(d: nat): (c: char)
    requires d < 10
    ensures '0' <= c <= '9' && c as int - '0' as int == d
  {
    ('0' as int + d) as char
  }

  /** The number a string of decimal digits denotes. */
  function DigitsValue(s: string): nat
    requires forall i :: 0 <= i < |s| ==> '0' <= s[i] <= '9'
  {
    if s == [] then 0
    else DigitsValue(s[..|s| - 1]) * 10 + (s[|s| - 1] as int - '0' as int)
  }

  /** Reading the digits back gives the number. */
  lemma {:induction false} NatStringValue(n: nat)
    ensures DigitsValue(NatString(n)) == n
    decreases n
  {
    var s := NatString(n);
    if n >= 10 {
      NatStringValue(n / 10);
      assert s[..|s| - 1] == NatString(n / 10);
      assert n == n / 10 * 10 + n % 10;
    }
  }

  /** `str` of an integer: a minus sign before the digits of a negative one. */
  function IntString(n: int): (s: string)
    ensures |s| >= 1
    ensures s[0] == '-' <==> n < 0
    ensures n < 0 ==> s[1..] == NatString(-n)
    ensures n >= 0 ==> s == NatString(n)
  {
    if n < 0 then "-" + NatString(-n) else NatString(n)
  }

  /** `str` of a `(y, x)` tuple, as an f-string writes a screen delta. */
  function PairString(p: Pos): string {
    "(" + IntString(p.y) + ", " + IntString(p.x) + ")"
  }
}
