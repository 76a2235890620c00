/** The film record: a mutable object with a nullable id, name, description,
    release date and duration, and a final hash set of the ids of the users
    who liked it. Equality and hashing look at the id alone. */
module FilmModel {
  import opened Wrappers
  import opened Dates

  /** Java `int`, the range of the boxed `Integer` duration. */
  newtype Int32 = x: int | -0x8000_0000 <= x < 0x8000_0000

  /** A snapshot of a film's fields, used to state what the service does to
      the stored object. */
  datatype FilmFields = FilmFields(
    id: Option<int>,
    name: Option<string>,
    description: Option<string>,
    releaseDate: Option<Date>,
    duration: Option<Int32>,
    likes: set<int>)

  /** A film with every field null and no likes: what a fresh `Film` holds. */
  const BlankFilm: FilmFields := FilmFields(None, None, None, None, None, {})

  /** Wrap an integer to the 32-bit two's-complement range, as Java `int`
      arithmetic does. */
  function WrapInt32(n: int): (r: int)
    ensures -0x8000_0000 <= r < 0x8000_0000
    ensures (r - n) % 0x1_0000_0000 == 0
    ensures -0x8000_0000 <= n < 0x8000_0000 ==> r == n
  {
    var m := n % 0x1_0000_0000;
    if m < 0x8000_0000 then m else m - 0x1_0000_0000
  }

  function Pow2(n: nat): (p: nat)
    ensures p >= 1
  {
    if n == 0 then 1 else 2 * Pow2(n - 1)
  }

  /** Bitwise exclusive or of the low `n` bits of two naturals, one bit at
      a time: Java's `^` on values of `n` bits. */
  function XorBits(a: nat, b: nat, n: nat): (r: nat)
    ensures r < Pow2(n)
  {
    if n == 0 then 0
    else (if a % 2 == b % 2 then 0 else 1) + 2 * XorBits(a / 2, b / 2, n - 1)
  }

  /** Xor with zero keeps an `n`-bit value. */
  lemma {:induction false} XorZero(a: nat, n: nat)
    requires a < Pow2(n)
    ensures XorBits(a, 0, n) == a
  {
    if n > 0 {
      XorZero(a / 2, n - 1);
    }
  }

  lemma {:induction false} Pow2Add(n: nat, m: nat)
    ensures Pow2(n + m) == Pow2(n) * Pow2(m)
  {
    if n > 0 {
      Pow2Add(n - 1, m);
    }
  }

  lemma Pow2Of32()
    ensures Pow2(32) == 0x1_0000_0000
  {
    assert Pow2(2) == 4;
    Pow2Add(2, 2);
    Pow2Add(4, 4);
    Pow2Add(8, 8);
    Pow2Add(16, 16);
  }

  /** The 32-bit halves of a `long`, as `Long.hashCode` splits them. */
  function HighHalf(v: int): nat {
    (v % 0x1_0000_0000_0000_0000) / 0x1_0000_0000
  }

  function LowHalf(v: int): nat {
    (v % 0x1_0000_0000_0000_0000) % 0x1_0000_0000
  }

  /** A non-negative `long` below 2^31 has a zero high half, so folding
      the halves gives the value back. */
  lemma SmallLongFolds(v: int)
    ensures 0 <= v < 0x8000_0000 ==> XorBits(LowHalf(v), HighHalf(v), 32) == v
  {
    if 0 <= v < 0x8000_0000 {
      assert v % 0x1_0000_0000_0000_0000 == v;
      assert HighHalf(v) == 0 && LowHalf(v) == v;
      Pow2Of32();
      XorZero(v, 32);
    }
  }

  /** `Long.hashCode`: the high and low 32-bit halves of the 64-bit value
      xor-ed together, read as a signed `int`. */
  function LongHash(v: int): (h: int)
    ensures -0x8000_0000 <= h < 0x8000_0000
    ensures 0 <= v < 0x8000_0000 ==> h == v
  {
    SmallLongFolds(v);
    WrapInt32(XorBits(LowHalf(v), HighHalf(v), 32))
  }

  class Film {
    var id: Option<int>
    var name: Option<string>
    var description: Option<string>
    var releaseDate: Option<Date>
    var duration: Option<Int32>
    /** Final in the source: the set's contents change, the field never
        gets another set. Only AddLike and RemoveLike touch it. */
    var likes: set<int>

    /** The no-argument constructor: all fields null, an empty like set. */
    constructor ()
      ensures Fields() == BlankFilm
    {
      id, name, description, releaseDate, duration := None, None, None, None, None;
      likes := {};
    }

    function Fields(): FilmFields
      reads this
    {
      FilmFields(id, name, description, releaseDate, duration, likes)
    }

    /** The generated `equals`: two films are equal when their ids are
        (two null ids included); no other field is compared. */
    function Equals(other: Film): (r: bool)
      reads this, other
      ensures r ==> HashCode() == other.HashCode()
    {
      id == other.id
    }

    /** The generated `hashCode`: `59 * 1 + (id == null ? 43 : id.hashCode())`
        in 32-bit arithmetic. */
    function HashCode(): (h: int)
      reads this
      ensures -0x8000_0000 <= h < 0x8000_0000
      ensures id == None ==> h == 102
      ensures id.Some? && 0 <= id.value < 0x8000_0000 - 59 ==> h == 59 + id.value
    {
      WrapInt32(59 + (if id == None then 43 else LongHash(id.value)))
    }

    method SetId(v: Option<int>)
      modifies this`id
      ensures Fields() == old(Fields()).(id := v)
    {
      id := v;
    }

    method SetName(v: Option<string>)
      modifies this`name
      ensures Fields() == old(Fields()).(name := v)
    {
      name := v;
    }

    method SetDescription(v: Option<string>)
      modifies this`description
      ensures Fields() == old(Fields()).(description := v)
    {
      description := v;
    }

    method SetReleaseDate(v: Option<Date>)
      modifies this`releaseDate
      ensures Fields() == old(Fields()).(releaseDate := v)
    {
      releaseDate := v;
    }

    method SetDuration(v: Option<Int32>)
      modifies this`duration
      ensures Fields() == old(Fields()).(duration := v)
    {
      duration := v;
    }

    /** `getLikes().add(userId)`: true when the user was not yet there. */
    method AddLike(userId: int) returns (added: bool)
      modifies this`likes
      ensures added <==> userId !in old(likes)
      ensures Fields() == old(Fields()).(likes := old(likes) + {userId})
    {
      added := userId !in likes;
      likes := likes + {userId};
    }

    /** `getLikes().remove(userId)`: true when the user was there. */
    method RemoveLike(userId: int) returns (removed: bool)
      modifies this`likes
      ensures removed <==> userId in old(likes)
      ensures Fields() == old(Fields()).(likes := old(likes) - {userId})
    {
      removed := userId in likes;
      likes := likes - {userId};
    }
  }

  /** Film equality is an equivalence relation decided by the id alone. */
  lemma EqualsIsEquivalence(a: Film, b: Film, c: Film)
    ensures a.Equals(a)
    ensures a.Equals(b) <==> b.Equals(a)
    ensures a.Equals(b) && b.Equals(c) ==> a.Equals(c)
    ensures a.Equals(b) <==> a.Fields().id == b.Fields().id
  {
  }
}
