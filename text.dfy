/** Plain string helpers: concatenation of a list of fragments, and Go's strings.Join. */
module Text {

  /** All fragments one after the other, with no separator. */
  function Concat(parts: seq<string>): string
  {
    if parts == [] then "" else parts[0] + Concat(parts[1..])
  }

  /** Go's strings.Join: the elements separated by `sep`; "" for no elements. */
  function Join(elems: seq<string>, sep: string): (r: string)
    ensures elems == [] ==> r == ""
    ensures elems != [] ==> |r| == |Concat(elems)| + (|elems| - 1) * |sep|
    ensures elems != [] ==> elems[0] <= r
  {
    if |elems| == 0 then ""
    else if |elems| == 1 then elems[0]
    else elems[0] + sep + Join(elems[1..], sep)
  }

  /** The separator followed by the element, for every element after the first. */
  function SeparatedTail(elems: seq<string>, sep: string): (r: seq<string>)
    requires elems != []
    ensures |r| == |elems| - 1
    ensures forall i :: 0 <= i < |r| ==> r[i] == sep + elems[i + 1]
  {
    seq(|elems| - 1, i requires 0 <= i < |elems| - 1 => sep + elems[i + 1])
  }

  /** A join is the first element, then each later element in order, each preceded by one separator. */
  lemma {:induction false} JoinIsSeparated(elems: seq<string>, sep: string)
    requires elems != []
    ensures Join(elems, sep) == elems[0] + Concat(SeparatedTail(elems, sep))
  {
    if |elems| == 1 {
      assert SeparatedTail(elems, sep) == [];
    } else {
      var rest := elems[1..];
      JoinIsSeparated(rest, sep);
      var t := SeparatedTail(elems, sep);
      assert t[1..] == SeparatedTail(rest, sep);
      assert t[0] == sep + rest[0];
      assert Concat(t) == t[0] + Concat(t[1..]);
    }
  }

  /** Joining one more element appends one separator and that element. */
  lemma {:induction false} JoinSnoc(elems: seq<string>, x: string, sep: string)
    requires elems != []
    ensures Join(elems + [x], sep) == Join(elems, sep) + sep + x
  {
    var longer := elems + [x];
    assert |longer| >= 2 && longer[0] == elems[0];
    assert Join(longer, sep) == elems[0] + sep + Join(longer[1..], sep);
    if |elems| == 1 {
      assert longer[1..] == [x];
      assert Join(elems, sep) == elems[0];
    } else {
      assert longer[1..] == elems[1..] + [x];
      JoinSnoc(elems[1..], x, sep);
      assert Join(elems, sep) == elems[0] + sep + Join(elems[1..], sep);
    }
  }

  /** With a non-empty separator, a join is empty only for no elements or one empty element. */
  lemma JoinEmptyIff(elems: seq<string>, sep: string)
    requires sep != ""
    ensures Join(elems, sep) == "" <==> elems == [] || elems == [""]
  {
    if |elems| >= 2 {
      assert |Join(elems, sep)| >= |sep| > 0;
    }
  }
}
