/**
 * The records the converters hand to the tiny-format writer, which is not part of this
 * model. The writer is opened with the namespaces "official", "intermediary" and "named",
 * so every row carries one name per namespace.
 */
module TinyRows {

  datatype TinyRow =
    | ClassRow(official: string, intermediary: string, named: string)
    | FieldRow(owner: string, desc: string, official: string, intermediary: string, named: string)
    | MethodRow(owner: string, desc: string, official: string, intermediary: string, named: string)

  /** Concatenation of a sequence of row blocks. */
  function Flatten(blocks: seq<seq<TinyRow>>): (r: seq<TinyRow>)
  {
    if |blocks| == 0 then [] else Flatten(blocks[..|blocks| - 1]) + blocks[|blocks| - 1]
  }

  /** The official names of the class rows among `rows`, in order. */
  function ClassNames(rows: seq<TinyRow>): seq<string> {
    if |rows| == 0 then []
    else ClassNames(rows[..|rows| - 1]) + (if rows[|rows| - 1].ClassRow? then [rows[|rows| - 1].official] else [])
  }

  lemma ClassNamesAppend(a: seq<TinyRow>, b: seq<TinyRow>)
    ensures ClassNames(a + b) == ClassNames(a) + ClassNames(b)
    decreases |b|
  {
    if |b| > 0 {
      assert (a + b)[..|a + b| - 1] == a + b[..|b| - 1];
      ClassNamesAppend(a, b[..|b| - 1]);
    } else {
      assert a + b == a;
    }
  }

  lemma ClassNamesSnoc(front: seq<TinyRow>, block: seq<TinyRow>, order: seq<string>)
    requires |order| > 0
    requires ClassNames(front) == order[..|order| - 1] && ClassNames(block) == [order[|order| - 1]]
    ensures ClassNames(front + block) == order
  {
    ClassNamesAppend(front, block);
    assert order == order[..|order| - 1] + [order[|order| - 1]];
  }

  /** Rows without class rows name no class. */
  lemma {:induction false} NoClassNames(rows: seq<TinyRow>)
    requires forall i :: 0 <= i < |rows| ==> !rows[i].ClassRow?
    ensures ClassNames(rows) == []
  {
    if |rows| > 0 {
      NoClassNames(rows[..|rows| - 1]);
    }
  }
}
