/**
 * The Hazel `MessageWriter`, seen only through what the modelled code asks of it: a log of
 * typed fields, in write order, with `StartMessage(tag)`/`EndMessage()` markers that must
 * nest. Byte-level packing (little-endian integers, length-prefixed strings, the length
 * patched into a started message) belongs to the library and is not part of this model.
 */
module Hazel {

  type byte = b: int | 0 <= b < 256

  datatype Field =
    | Int32(i: int)        // Write(int)
    | UInt32(u: nat)       // Write(uint)
    | UInt64(l: nat)       // Write(ulong)
    | Byte(b: byte)        // Write(byte)
    | Str(s: string)       // Write(string)
    | Start(tag: byte)     // StartMessage(tag)
    | End                  // EndMessage()

  /** Started messages not yet ended, counting an unmatched end as negative. */
  function Depth(fields: seq<Field>): int
  {
    if fields == [] then 0
    else
      var last := fields[|fields| - 1];
      Depth(fields[..|fields| - 1]) + (if last.Start? then 1 else if last.End? then -1 else 0)
  }

  /** No `EndMessage` closes more messages than were started before it. */
  ghost predicate WellNested(fields: seq<Field>)
  {
    forall k :: 0 <= k <= |fields| ==> Depth(fields[..k]) >= 0
  }

  /** Every started message has been ended, in LIFO order. */
  ghost predicate Balanced(fields: seq<Field>)
  {
    WellNested(fields) && Depth(fields) == 0
  }

  lemma DepthAppend(fields: seq<Field>, f: Field)
    ensures Depth(fields + [f]) == Depth(fields) + (if f.Start? then 1 else if f.End? then -1 else 0)
  {
    assert (fields + [f])[..|fields|] == fields;
  }

  /** Appending a field keeps the log well nested as long as the depth stays non-negative. */
  lemma WellNestedAppend(fields: seq<Field>, f: Field)
    requires WellNested(fields)
    requires Depth(fields) + (if f.End? then -1 else 0) >= 0
    ensures WellNested(fields + [f])
    ensures Depth(fields + [f]) == Depth(fields) + (if f.Start? then 1 else if f.End? then -1 else 0)
  {
    DepthAppend(fields, f);
    var longer := fields + [f];
    forall k | 0 <= k <= |longer| ensures Depth(longer[..k]) >= 0 {
      if k <= |fields| {
        assert longer[..k] == fields[..k];
      } else {
        assert longer[..k] == longer;
      }
    }
  }

  class MessageWriter {
    var fields: seq<Field>
    var open: nat

    ghost predicate Valid()
      reads this
    {
      WellNested(fields) && Depth(fields) == open
    }

    constructor ()
      ensures Valid() && fields == [] && open == 0
    {
      fields, open := [], 0;
    }

    /** Any `Write` overload: one plain field at the end, nesting unchanged. */
    method Write(f: Field)
      requires Valid()
      requires !f.Start? && !f.End?
      modifies this
      ensures Valid()
      ensures fields == old(fields) + [f] && open == old(open)
    {
      WellNestedAppend(fields, f);
      fields := fields + [f];
    }

    method StartMessage(tag: byte)
      requires Valid()
      modifies this
      ensures Valid()
      ensures fields == old(fields) + [Start(tag)] && open == old(open) + 1
    {
      WellNestedAppend(fields, Start(tag));
      fields := fields + [Start(tag)];
      open := open + 1;
    }

    /** Closes the innermost started message; Hazel demands that one is open. */
    method EndMessage()
      requires Valid() && open > 0
      modifies this
      ensures Valid()
      ensures fields == old(fields) + [End] && open == old(open) - 1
    {
      WellNestedAppend(fields, End);
      fields := fields + [End];
      open := open - 1;
    }
  }
}
