/** The base of every game entity (Objects/game_object.py): a fresh uid, a
    display name, a key/value property store, a tag set, and equality and
    hashing by uid. */
module GameObjects {
  import opened Common

  /** Property values are arbitrary Python objects; these cases stand for
      the ones the game stores. */
  datatype Value = IntValue(i: int) | StrValue(s: string) | BoolValue(b: bool) | NoneValue

  /** Source of fresh uids (the role `uuid4()` plays). */
  class UidGenerator {
    ghost var issued: set<Uid>
    var next: Uid

    ghost predicate Valid()
      reads this
    {
      forall u :: u in issued ==> u < next
    }

    constructor ()
      ensures Valid() && issued == {}
    {
      next := 0;
      issued := {};
    }

    method Fresh() returns (u: Uid)
      requires Valid()
      modifies this
      ensures Valid()
      ensures u !in old(issued) && issued == old(issued) + {u}
    {
      u := next;
      next := next + 1;
      issued := issued + {u};
    }
  }

  /** `_properties.get(key, default)` on a property map. */
  function GetProp(props: map<string, Value>, key: string, default: Value): Value {
    if key in props then props[key] else default
  }

  class GameObject {
    const uid: Uid
    const name: string
    var tags: set<string>
    var properties: map<string, Value>

    /** A new object has a uid never issued before and empty stores. */
    constructor (gen: UidGenerator, name: string)
      requires gen.Valid()
      modifies gen
      ensures gen.Valid()
      ensures uid !in old(gen.issued) && gen.issued == old(gen.issued) + {uid}
      ensures this.name == name && tags == {} && properties == map[]
    {
      var u := gen.Fresh();
      this.uid := u;
      this.name := name;
      tags := {};
      properties := map[];
    }

    function Get(key: string, default: Value): (v: Value)
      reads this
      ensures key in properties ==> v == properties[key]
      ensures key !in properties ==> v == default
    {
      GetProp(properties, key, default)
    }

    method SetProp(key: string, value: Value)
      modifies this`properties
      ensures properties == old(properties)[key := value]
      ensures Get(key, NoneValue) == value && HasProp(key)
    {
      properties := properties[key := value];
    }

    predicate HasProp(key: string)
      reads this
    {
      key in properties
    }

    /** `_properties.pop(key, None)`: never fails, other keys are kept. */
    method RemoveProp(key: string)
      modifies this`properties
      ensures !HasProp(key)
      ensures properties == old(properties) - {key}
      ensures forall k :: k != key && k in old(properties) ==> k in properties && properties[k] == old(properties)[k]
    {
      properties := properties - {key};
    }

    method AddTag(tag: string)
      modifies this`tags
      ensures tags == old(tags) + {tag} && HasTag(tag)
    {
      tags := tags + {tag};
    }

    predicate HasTag(tag: string)
      reads this
    {
      tag in tags
    }

    /** `tags.discard(tag)`: a no-op when the tag is absent. */
    method RemoveTag(tag: string)
      modifies this`tags
      ensures tags == old(tags) - {tag} && !HasTag(tag)
      ensures tag !in old(tags) ==> tags == old(tags)
    {
      tags := tags - {tag};
    }

    /** `__eq__`: two objects are equal iff they share a uid. */
    predicate Equals(other: GameObject) {
      uid == other.uid
    }

    /** `__hash__`: derived from the uid alone. */
    function Hash(): int {
      UidHash(uid)
    }
  }

  /** Python's string hash is not specified; any fixed function of the uid
      plays its part. */
  function UidHash(u: Uid): int {
    u
  }

  /** Equal objects hash equally, so uid equality is a valid dict/set key
      equality. */
  lemma EqualsConsistentWithHash(a: GameObject, b: GameObject)
    ensures a.Equals(b) ==> a.Hash() == b.Hash()
    ensures a.Equals(b) <==> b.Equals(a)
  {
  }

  /** `get_prop` returns the stored value after `set_prop` and the default
      for an absent key; other keys are unaffected. */
  lemma GetAfterSet(props: map<string, Value>, key: string, value: Value, other: string, default: Value)
    ensures GetProp(props[key := value], key, default) == value
    ensures other != key ==> GetProp(props[key := value], other, default) == GetProp(props, other, default)
    ensures key !in props ==> GetProp(props, key, default) == default
  {
  }

  /** Two objects made one after the other from the same generator are
      never equal. */
  method FreshObjectsDiffer(gen: UidGenerator, n1: string, n2: string) returns (a: GameObject, b: GameObject)
    requires gen.Valid()
    modifies gen
    ensures !a.Equals(b)
  {
    a := new GameObject(gen, n1);
    b := new GameObject(gen, n2);
  }
}
