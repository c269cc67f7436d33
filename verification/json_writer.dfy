/**
 * The indenting JSON writer (matrix/helpers/json_writer.hpp): a state
 * machine over the open containers. Each container remembers its kind and
 * how many entries it has; entries after the first are preceded by a comma,
 * every entry starts on a new line indented by the number of open
 * containers.
 */
module JsonWriters {
  import opened Strings

  datatype Container = Object | Map | List

  /** A saved container: its kind and its entry count. */
  datatype State = State(container: Container, index: nat)

  /** `out << value` for a 64-bit integer: decimal, with a minus sign when
      negative. */
  function IntToString(i: int): (s: string)
    ensures |s| >= 1
    ensures i >= 0 ==> s == NatToString(i)
    ensures i < 0 ==> s == "-" + NatToString(-i)
  {
    if i < 0 then "-" + NatToString(-i) else NatToString(i)
  }

  /** What starts entry number `n` (1-based) at nesting `depth`: a comma for
      every entry but the first, a line break, then the indentation. */
  function EntryStart(n: nat, depth: nat): (s: string)
    ensures (n > 1 ==> s == "," + "\n" + Repeat(' ', depth)) && (n <= 1 ==> s == "\n" + Repeat(' ', depth))
  {
    (if n > 1 then "," else "") + "\n" + Repeat(' ', depth)
  }

  /** The text that closes a container holding `entries` entries, at the
      nesting `depth` left after closing it. Only a container with entries
      gets a line break before its bracket. */
  function Closing(entries: nat, depth: nat, bracket: char): (s: string)
    ensures |s| >= 1 && s[|s| - 1] == bracket
    ensures entries > 0 ==> s[0] == '\n'
    ensures entries == 0 ==> forall i :: 0 <= i < |s| - 1 ==> s[i] == ' '
  {
    (if entries > 0 then "\n" else "") + Repeat(' ', depth) + [bracket]
  }

  /** `Complete` as written breaks the line only after more than one entry. */
  function ClosingAsWritten(entries: nat, depth: nat, bracket: char): (s: string)
    ensures |s| >= 1
  {
    (if entries > 1 then "\n" else "") + Repeat(' ', depth) + [bracket]
  }

  /** As written, the bracket of a container with exactly one entry stays on
      that entry's line, unlike the bracket of a longer one, although the
      entry itself was put on a fresh line. */
  lemma ClosingAsWrittenSingleEntry(depth: nat, bracket: char)
    ensures var s := ClosingAsWritten(1, depth, bracket); forall i :: 0 <= i < |s| - 1 ==> s[i] == ' '
    ensures ClosingAsWritten(2, depth, bracket)[0] == '\n'
    ensures Closing(1, depth, bracket)[0] == '\n'
  {
    assert ClosingAsWritten(1, depth, bracket) == Repeat(' ', depth) + [bracket];
  }

  class JsonWriter {
    var out: string
    var container: Container
    var index: nat
    var stack: seq<State>

    /** The top level is an object with no entries. */
    constructor ()
      ensures out == "" && container == Object && index == 0 && stack == []
    {
      out := "";
      container := Object;
      index := 0;
      stack := [];
    }

    /** The number of open containers. */
    function Depth(): (d: nat)
      reads this
      ensures d == |stack|
    {
      |stack|
    }

    method Indent()
      modifies this
      ensures out == old(out) + Repeat(' ', Depth())
      ensures container == old(container) && index == old(index) && stack == old(stack)
    {
      if Depth() > 0 {
        out := out + Repeat(' ', Depth());
      } else {
        assert Repeat(' ', 0) == [];
      }
    }

    /** Counts a new entry and starts it: a comma unless it is the first, a
        line break, the indentation. */
    method NewEntry()
      modifies this
      ensures index == old(index) + 1
      ensures out == old(out) + EntryStart(index, Depth())
      ensures ((',' in out[|old(out)|..]) <==> index > 1)
      ensures container == old(container) && stack == old(stack)
    {
      index := index + 1;
      if index > 1 {
        out := out + ",";
      }
      out := out + "\n";
      Indent();
      assert out[|old(out)|..] == EntryStart(index, Depth());
      assert ',' !in Repeat(' ', Depth());
    }

    /** A value starts a new entry only inside a list; inside a map it
        follows its field name. */
    method BeforeValue()
      modifies this
      ensures container == List ==> index == old(index) + 1 && out == old(out) + EntryStart(index, Depth())
      ensures container != List ==> index == old(index) && out == old(out)
      ensures container == old(container) && stack == old(stack)
    {
      if container == List {
        NewEntry();
      }
    }

    /** A field always starts a new entry. */
    method BeforeField()
      modifies this
      ensures index == old(index) + 1 && out == old(out) + EntryStart(index, Depth())
      ensures container == old(container) && stack == old(stack)
    {
      NewEntry();
    }

    method PushState()
      modifies this
      ensures stack == old(stack) + [State(container, index)]
      ensures out == old(out) && container == old(container) && index == old(index)
    {
      stack := stack + [State(container, index)];
    }

    /** Restores the innermost saved container. */
    method PopState()
      requires stack != []
      modifies this
      ensures stack == old(stack)[..|old(stack)| - 1]
      ensures container == old(stack)[|old(stack)| - 1].container && index == old(stack)[|old(stack)| - 1].index
      ensures out == old(out)
    {
      var s := stack[|stack| - 1];
      stack := stack[..|stack| - 1];
      container := s.container;
      index := s.index;
    }

    /** Opens a list: the enclosing container is saved (counting this list
        as its entry if it is a list) and an empty list becomes current. */
    method OpenList()
      modifies this
      ensures var i := if old(container) == List then old(index) + 1 else old(index);
        stack == old(stack) + [State(old(container), i)] &&
        out == old(out) + (if old(container) == List then EntryStart(i, |old(stack)|) else "") + "["
      ensures container == List && index == 0
    {
      BeforeValue();
      out := out + "[";
      PushState();
      container := List;
      index := 0;
    }

    /** Opens a map, like `OpenList`. */
    method OpenMap()
      modifies this
      ensures var i := if old(container) == List then old(index) + 1 else old(index);
        stack == old(stack) + [State(old(container), i)] &&
        out == old(out) + (if old(container) == List then EntryStart(i, |old(stack)|) else "") + "{"
      ensures container == Map && index == 0
    {
      BeforeValue();
      out := out + "{";
      PushState();
      container := Map;
      index := 0;
    }

    /** Closes the current container and makes the enclosing one current
        again, exactly as it was saved. */
    method CloseList()
      requires stack != []
      modifies this
      ensures stack == old(stack)[..|old(stack)| - 1]
      ensures State(container, index) == old(stack)[|old(stack)| - 1]
      ensures out == old(out) + Closing(old(index), |stack|, ']')
    {
      Complete();
      PopState();
      Indent();
      out := out + "]";
    }

    method CloseMap()
      requires stack != []
      modifies this
      ensures stack == old(stack)[..|old(stack)| - 1]
      ensures State(container, index) == old(stack)[|old(stack)| - 1]
      ensures out == old(out) + Closing(old(index), |stack|, '}')
    {
      Complete();
      PopState();
      Indent();
      out := out + "}";
    }

    /** Ends the current container's last entry with a line break when it
        has any (see `ClosingAsWritten`). */
    method Complete()
      modifies this
      ensures out == old(out) + if index > 0 then "\n" else ""
      ensures container == old(container) && index == old(index) && stack == old(stack)
    {
      if index > 0 {
        out := out + "\n";
      }
    }

    /** Starts an entry and writes the quoted field name, a colon and a
        space. */
    method WriteField(name: string)
      modifies this
      ensures index == old(index) + 1
      ensures out == old(out) + EntryStart(index, Depth()) + "\"" + name + "\": "
      ensures container == old(container) && stack == old(stack)
    {
      BeforeField();
      out := out + "\"" + name + "\": ";
    }

    /** Writes the string between quotes, as it is: nothing is escaped. */
    method WriteString(str: string)
      modifies this
      ensures container == old(container) && stack == old(stack)
      ensures index == if container == List then old(index) + 1 else old(index)
      ensures out == old(out) + (if container == List then EntryStart(index, Depth()) else "") + "\"" + str + "\""
    {
      BeforeValue();
      out := out + "\"" + str + "\"";
    }

    method WriteInteger(value: int)
      modifies this
      ensures container == old(container) && stack == old(stack)
      ensures index == if container == List then old(index) + 1 else old(index)
      ensures out == old(out) + (if container == List then EntryStart(index, Depth()) else "") + IntToString(value)
    {
      BeforeValue();
      out := out + IntToString(value);
    }
  }
}
