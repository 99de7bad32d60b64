/** `HTMLTemplate`, the `string.Template` subclass whose delimiter is `$$$`
    (archiver.py:58-59), seen after its pattern has matched: a template is
    the sequence of literal text and placeholder matches. */
module Templates {
  import opened Outcomes

  /** `string.Template`'s identifier pattern `[_a-z][_a-z0-9]*`, matched
      ASCII-only and ignoring case. */
  predicate IdStart(c: char) {
    c == '_' || 'a' <= c <= 'z' || 'A' <= c <= 'Z'
  }

  predicate IdChar(c: char) {
    IdStart(c) || '0' <= c <= '9'
  }

  predicate IsIdentifier(s: string) {
    |s| > 0 && IdStart(s[0]) && forall i :: 1 <= i < |s| ==> IdChar(s[i])
  }

  type Identifier = s: string | IsIdentifier(s) witness "_"

  const Delimiter: string := "$$$"

  /** The text the resolver splices into a document: `$$${id}`. */
  function Placeholder(id: string): string {
    Delimiter + "{" + id + "}"
  }

  /** One match of the template pattern, or the text between matches:
      `$$$name` and `$$${name}` are slots, `$$$$$$` is an escaped
      delimiter, and any other `$$$` is an invalid placeholder. */
  datatype Chunk = Verbatim(text: string) | Slot(id: Identifier) | Escaped | Invalid

  type Template = seq<Chunk>

  /** `Template.get_identifiers()`: the slot names, each once, in the order
      of their first occurrence. */
  function Identifiers(t: Template): (ids: seq<Identifier>)
    ensures forall i, j :: 0 <= i < j < |ids| ==> ids[i] != ids[j]
    ensures forall id: Identifier :: id in ids <==> Slot(id) in t
  {
    if t == [] then []
    else
      var init := t[..|t| - 1];
      var ids := Identifiers(init);
      assert t == init + [t[|t| - 1]];
      match t[|t| - 1]
      case Slot(id) => if id in ids then ids else ids + [id]
      case _ => ids
  }

  /** `ids` lists names in the order of their first slot in `t`: before
      any slot of a later name, every earlier one has had a slot. */
  predicate InOrderOfFirstSlot(ids: seq<Identifier>, t: Template) {
    forall i, j, k :: 0 <= j < i < |ids| && 0 <= k < |t| && t[k] == Slot(ids[i]) ==> Slot(ids[j]) in t[..k]
  }

  /** `get_identifiers()` lists the names in the order of their first
      occurrence. */
  lemma {:induction false} IdentifiersInOrder(t: Template)
    ensures InOrderOfFirstSlot(Identifiers(t), t)
  {
    if t != [] {
      var init := t[..|t| - 1];
      var before := Identifiers(init);
      var ids := Identifiers(t);
      IdentifiersInOrder(init);
      assert t == init + [t[|t| - 1]];
      assert ids[..|before|] == before by {
        match t[|t| - 1]
        case Slot(id) => assert ids == before || ids == before + [id];
        case _ =>
      }
      forall i, j, k | 0 <= j < i < |ids| && 0 <= k < |t| && t[k] == Slot(ids[i])
        ensures Slot(ids[j]) in t[..k]
      {
        if k < |init| {
          assert init[k] == Slot(ids[i]);
          assert ids[i] in before;
          assert i < |before|;
          assert before[i] == ids[i] && before[j] == ids[j];
          assert Slot(before[j]) in init[..k];
          assert init[..k] == t[..k];
        } else {
          assert j < |before|;
          assert ids[j] == before[j];
          assert Slot(ids[j]) in init;
          assert t[..k] == init;
        }
      }
    }
  }

  /** The text one chunk stands for under `Template.substitute(vars)`. */
  function ChunkText(c: Chunk, vars: map<Identifier, string>): Result<string> {
    match c
    case Verbatim(s) => Ok(s)
    case Slot(id) => if id in vars then Ok(vars[id]) else Err(MissingVariable(id))
    case Escaped => Ok(Delimiter)
    case Invalid => Err(InvalidPlaceholder)
  }

  /** `Template.substitute(vars)`: chunks are replaced left to right and
      the first one that cannot be raises. */
  function Substitute(t: Template, vars: map<Identifier, string>): Result<string> {
    if t == [] then Ok("")
    else
      var head := ChunkText(t[0], vars);
      if head.Err? then Err(head.error)
      else
        var rest := Substitute(t[1..], vars);
        if rest.Err? then rest else Ok(head.value + rest.value)
  }

  /** Substitution succeeds exactly when the template has no invalid
      placeholder and every slot has a value. */
  lemma {:induction false} SubstituteSucceeds(t: Template, vars: map<Identifier, string>)
    ensures Substitute(t, vars).Ok? <==>
            (Invalid !in t && forall id: Identifier :: Slot(id) in t ==> id in vars)
  {
    if t != [] {
      SubstituteSucceeds(t[1..], vars);
      assert t == [t[0]] + t[1..];
    }
  }
}
