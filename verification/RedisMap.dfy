/** The Redis-backed map: deleting every field the server matches against a prefix pattern. */
module RedisMap {
  import opened Basics

  /** How many fields may pile up before they are deleted together. */
  const FLUSH_ABOVE: nat := 20

  /** The fields of a map that a server-side match selects. */
  ghost function Matching(fields: map<Bytes, Bytes>, matches: Bytes -> bool): (r: set<Bytes>) {
    set f | f in fields && matches(f)
  }

  /** The server's matching of the pattern "prefix followed by *" when the prefix has no pattern characters. */
  function LiteralPrefix(prefix: Bytes): (matches: Bytes -> bool) {
    (f: Bytes) => prefix <= f
  }

  class RedisStorageMap {
    var fields: map<Bytes, Bytes>

    constructor ()
      ensures fields == map[]
    {
      fields := map[];
    }

    method DeleteFields(keys: seq<Bytes>)
      modifies this
      ensures fields == old(fields) - set k | k in keys
    {
      fields := fields - set k | k in keys;
    }

    /**
     Each pass restarts the scan and keeps only its first item, whichever the server offers, so the
     same field can be collected many times. `matches` is the server's matching rule.
     */
    method RemoveWithPrefix(matches: Bytes -> bool)
      modifies this
      ensures fields == map f | f in old(fields) && !matches(f) :: old(fields)[f]
    {
      var removeds: seq<Bytes> := [];
      var more := exists f :: f in fields && matches(f);
      while more
        invariant more == exists f :: f in fields && matches(f)
        invariant |removeds| <= FLUSH_ABOVE && (removeds == [] || more)
        invariant forall k :: k in removeds ==> k in fields && matches(k)
        invariant forall f :: f in old(fields) && !matches(f) ==> f in fields
        invariant forall f :: f in fields ==> f in old(fields) && fields[f] == old(fields)[f]
        decreases |Matching(fields, matches)|, FLUSH_ABOVE + 1 - |removeds|
      {
        var key :| key in fields && matches(key);
        removeds := removeds + [key];
        if |removeds| > FLUSH_ABOVE {
          ghost var before := fields;
          DeleteFields(removeds);
          FewerMatches(before, fields, matches, key);
          removeds := [];
        }
        more := exists f :: f in fields && matches(f);
      }
      // Whatever was collected last would still match, so nothing is left for the trailing delete.
      if removeds != [] {
        assert false;
      }
    }

    /** With a prefix free of pattern characters exactly the fields with that prefix go. */
    method RemoveLiteralPrefix(prefix: Bytes)
      modifies this
      ensures forall f :: f in fields <==> f in old(fields) && !(prefix <= f)
      ensures forall f :: f in fields ==> fields[f] == old(fields)[f]
    {
      RemoveWithPrefix(LiteralPrefix(prefix));
    }
  }

  lemma FewerMatches(before: map<Bytes, Bytes>, after: map<Bytes, Bytes>, matches: Bytes -> bool, key: Bytes)
    requires after.Keys <= before.Keys && key in before && matches(key) && key !in after
    ensures |Matching(after, matches)| < |Matching(before, matches)|
  {
    var a, b := Matching(after, matches), Matching(before, matches);
    assert a <= b && key in b - a;
    assert |b| == |a| + |b - a| by { assert b == a + (b - a); }
  }
}
