/** What the formatter promises about its output: the shape of one entry's
    block, the blank separators between blocks, and that the blocks can be
    read back from the output in result order. */
module FormatProperties {
  import opened ByteStrings
  import opened Ldap
  import opened Format

  // ---------------------------------------------------------------------
  // One value line

  /** A value line is the attribute's own name and ": ", followed by the value
      itself when it is at most 100 bytes long and by `<long>` otherwise. */
  lemma ValueLineParts(name: Bytes, value: Bytes)
    ensures |ValueLine(name, value)| >= |name| + 2
    ensures ValueLine(name, value)[..|name| + 2] == name + Ascii(": ")
    ensures |value| <= MaxValueLength ==> ValueLine(name, value)[|name| + 2..] == value
    ensures |value| > MaxValueLength ==> ValueLine(name, value)[|name| + 2..] == Ascii("<long>")
  {
  }

  // ---------------------------------------------------------------------
  // One entry's block

  /** The j-th line of an attribute is the line of its j-th value. */
  lemma {:induction false} ValueLinesAt(name: Bytes, values: seq<Bytes>, j: nat)
    requires j < |values|
    ensures ValueLines(name, values)[j] == ValueLine(name, values[j])
  {
    if j > 0 {
      ValueLinesAt(name, values[1..], j - 1);
    }
  }

  /** The attribute lines of a concatenation are the lines of each part in turn. */
  lemma {:induction false} AttributeLinesAppend(a: seq<EntryAttribute>, b: seq<EntryAttribute>)
    ensures AttributeLines(a + b) == AttributeLines(a) + AttributeLines(b)
  {
    if a == [] {
      assert a + b == b;
    } else {
      assert (a + b)[1..] == a[1..] + b;
      AttributeLinesAppend(a[1..], b);
    }
  }

  /** Value counts add up over a concatenation. */
  lemma {:induction false} ValueCountAppend(a: seq<EntryAttribute>, b: seq<EntryAttribute>)
    ensures ValueCount(a + b) == ValueCount(a) + ValueCount(b)
  {
    if a == [] {
      assert a + b == b;
    } else {
      assert (a + b)[1..] == a[1..] + b;
      ValueCountAppend(a[1..], b);
    }
  }

  /** The line of the j-th value of the i-th attribute comes after the lines of
      all earlier attributes and of the earlier values of its own attribute,
      and carries that attribute's name. */
  lemma {:induction false} AttributeLinesAt(attributes: seq<EntryAttribute>, i: nat, j: nat)
    requires i < |attributes| && j < |attributes[i].values|
    ensures ValueCount(attributes[..i]) + j < ValueCount(attributes)
    ensures AttributeLines(attributes)[ValueCount(attributes[..i]) + j]
         == ValueLine(attributes[i].name, attributes[i].values[j])
  {
    var a := attributes[i];
    assert attributes == attributes[..i] + ([a] + attributes[i + 1..]);
    assert [a] + attributes[i + 1..] == attributes[i..];
    AttributeLinesAppend(attributes[..i], attributes[i..]);
    ValueCountAppend(attributes[..i], attributes[i..]);
    assert attributes[i..][1..] == attributes[i + 1..];
    ValueLinesAt(a.name, a.values, j);
  }

  /** Where the line of the j-th value of the i-th attribute stands among the
      attribute lines: after every value of the earlier attributes and the
      earlier values of its own attribute. */
  function ValuePosition(attributes: seq<EntryAttribute>, i: nat, j: nat): nat
    requires i <= |attributes|
  {
    ValueCount(attributes[..i]) + j
  }

  /** An entry's block is its `dn:` line followed by exactly one line per value,
      attribute by attribute and value by value in their given order. */
  lemma EntryLinesShape(entry: Entry)
    ensures |EntryLines(entry)| == 1 + ValueCount(entry.attributes)
    ensures EntryLines(entry)[0] == Ascii("dn: ") + entry.dn
    ensures forall i: nat, j: nat :: i < |entry.attributes| && j < |entry.attributes[i].values| ==>
      1 + ValuePosition(entry.attributes, i, j) < |EntryLines(entry)| &&
      EntryLines(entry)[1 + ValuePosition(entry.attributes, i, j)]
        == ValueLine(entry.attributes[i].name, entry.attributes[i].values[j])
  {
    forall i: nat, j: nat | i < |entry.attributes| && j < |entry.attributes[i].values|
      ensures 1 + ValuePosition(entry.attributes, i, j) < |EntryLines(entry)| &&
        EntryLines(entry)[1 + ValuePosition(entry.attributes, i, j)]
        == ValueLine(entry.attributes[i].name, entry.attributes[i].values[j])
    {
      AttributeLinesAt(entry.attributes, i, j);
      var k := ValuePosition(entry.attributes, i, j);
      assert EntryLines(entry)[1 + k] == AttributeLines(entry.attributes)[k];
    }
  }

  /** An attribute without values prints nothing: removing it leaves the
      block unchanged. */
  lemma EmptyAttributeSilent(before: seq<EntryAttribute>, name: Bytes, after: seq<EntryAttribute>)
    ensures AttributeLines(before + [EntryAttribute(name, [])] + after) == AttributeLines(before + after)
  {
    var silent := EntryAttribute(name, []);
    AttributeLinesAppend(before + [silent], after);
    AttributeLinesAppend(before, [silent]);
    assert [silent][1..] == [];
    AttributeLinesAppend(before, after);
  }

  /** No line of an entry's block is blank. */
  lemma {:induction false} AttributeLinesNonBlank(attributes: seq<EntryAttribute>)
    ensures [] !in AttributeLines(attributes)
  {
    if attributes != [] {
      var a := attributes[0];
      forall j | 0 <= j < |a.values| ensures ValueLines(a.name, a.values)[j] != [] {
        ValueLinesAt(a.name, a.values, j);
        ValueLineParts(a.name, a.values[j]);
      }
      AttributeLinesNonBlank(attributes[1..]);
    }
  }

  lemma EntryLinesNonBlank(entry: Entry)
    ensures [] !in EntryLines(entry)
  {
    AttributeLinesNonBlank(entry.attributes);
    assert |DnLine(entry.dn)| >= 4;
  }

  // ---------------------------------------------------------------------
  // The whole output

  /** The number of lines of all entry blocks, counted from the entries. */
  function BlockLineCount(entries: seq<Entry>): nat {
    if entries == [] then 0 else 1 + ValueCount(entries[0].attributes) + BlockLineCount(entries[1..])
  }

  lemma {:induction false} SeparatedBlocksCount(entries: seq<Entry>)
    ensures |SeparatedBlocks(entries)| == BlockLineCount(entries) + |entries|
    ensures multiset(SeparatedBlocks(entries))[[]] == |entries|
  {
    if entries != [] {
      EntryLinesNonBlank(entries[0]);
      SeparatedBlocksCount(entries[1..]);
    }
  }

  /** No entries, no output. Otherwise the output has the lines of every
      entry block plus one separator line between consecutive entries. */
  lemma OutputLineCount(entries: seq<Entry>)
    ensures entries == [] ==> OutputLines(entries) == []
    ensures entries != [] ==> |OutputLines(entries)| == BlockLineCount(entries) + |entries| - 1
  {
    if entries != [] {
      SeparatedBlocksCount(entries[1..]);
    }
  }

  /** N entries give exactly N - 1 blank lines, and neither the first nor the
      last line of the output is blank. */
  lemma BlankSeparators(entries: seq<Entry>)
    requires entries != []
    ensures multiset(OutputLines(entries))[[]] == |entries| - 1
    ensures OutputLines(entries)[0] != []
    ensures OutputLines(entries)[|OutputLines(entries)| - 1] != []
  {
    EntryLinesNonBlank(entries[0]);
    SeparatedBlocksCount(entries[1..]);
    LastLineNonBlank(entries[0], entries[1..]);
  }

  lemma {:induction false} LastLineNonBlank(first: Entry, rest: seq<Entry>)
    ensures var out := EntryLines(first) + SeparatedBlocks(rest); out[|out| - 1] != []
    decreases rest
  {
    if rest == [] {
      EntryLinesNonBlank(first);
      assert EntryLines(first) + SeparatedBlocks(rest) == EntryLines(first);
    } else {
      LastLineNonBlank(rest[0], rest[1..]);
      assert EntryLines(first) + SeparatedBlocks(rest)
          == (EntryLines(first) + [[]]) + (EntryLines(rest[0]) + SeparatedBlocks(rest[1..]));
    }
  }

  // ---------------------------------------------------------------------
  // Reading the output back

  /** Splits lines into the blocks between blank lines (k blank lines give
      k + 1 blocks). */
  function SplitAtBlanks(lines: seq<Bytes>): (blocks: seq<seq<Bytes>>)
    ensures |blocks| == multiset(lines)[[]] + 1
  {
    if lines == [] then [[]]
    else
      var rest := SplitAtBlanks(lines[1..]);
      assert lines == [lines[0]] + lines[1..];
      if lines[0] == [] then [[]] + rest
      else [[lines[0]] + rest[0]] + rest[1..]
  }

  /** The blocks of the entries, in result order. */
  function Blocks(entries: seq<Entry>): (blocks: seq<seq<Bytes>>)
    ensures |blocks| == |entries|
    ensures forall k :: 0 <= k < |entries| ==> blocks[k] == EntryLines(entries[k])
  {
    if entries == [] then [] else [EntryLines(entries[0])] + Blocks(entries[1..])
  }

  lemma {:induction false} SplitBlock(block: seq<Bytes>, rest: seq<Bytes>)
    requires [] !in block
    ensures SplitAtBlanks(block + rest) == [block + SplitAtBlanks(rest)[0]] + SplitAtBlanks(rest)[1..]
  {
    var after := SplitAtBlanks(rest);
    if block == [] {
      assert block + rest == rest;
      assert block + after[0] == after[0];
      assert after == [after[0]] + after[1..];
    } else {
      var lines := block + rest;
      assert lines[0] == block[0] && lines[0] != [];
      assert lines[1..] == block[1..] + rest;
      SplitBlock(block[1..], rest);
      var inner := SplitAtBlanks(lines[1..]);
      assert inner[0] == block[1..] + after[0];
      assert inner[1..] == after[1..];
      assert SplitAtBlanks(lines) == [[lines[0]] + inner[0]] + inner[1..];
      assert [block[0]] + (block[1..] + after[0]) == block + after[0];
    }
  }

  lemma {:induction false} SplitSeparated(block: seq<Bytes>, entries: seq<Entry>)
    requires [] !in block
    ensures SplitAtBlanks(block + SeparatedBlocks(entries)) == [block] + Blocks(entries)
    decreases entries
  {
    var tail := SeparatedBlocks(entries);
    SplitBlock(block, tail);
    var after := SplitAtBlanks(tail);
    if entries == [] {
      assert after == [[]];
      assert block + after[0] == block;
      assert Blocks(entries) == [];
    } else {
      var next := EntryLines(entries[0]);
      var more := SeparatedBlocks(entries[1..]);
      EntryLinesNonBlank(entries[0]);
      SplitSeparated(next, entries[1..]);
      assert tail == [[]] + (next + more);
      assert tail[1..] == next + more;
      assert after == [[]] + SplitAtBlanks(next + more);
      assert block + after[0] == block;
      assert after[1..] == [next] + Blocks(entries[1..]);
      assert Blocks(entries) == [next] + Blocks(entries[1..]);
    }
  }

  /** The output is exactly the entry blocks joined by blank lines: splitting
      it at its blank lines gives back each entry's block, in result order. */
  lemma OutputSplitsIntoBlocks(entries: seq<Entry>)
    requires entries != []
    ensures SplitAtBlanks(OutputLines(entries)) == Blocks(entries)
  {
    EntryLinesNonBlank(entries[0]);
    SplitSeparated(EntryLines(entries[0]), entries[1..]);
    assert Blocks(entries) == [EntryLines(entries[0])] + Blocks(entries[1..]);
  }

  // ---------------------------------------------------------------------
  // Examples

  /** One entry with a single short value prints exactly two lines: its `dn:`
      line and the value's line. */
  lemma SingleValueEntry(dn: Bytes, name: Bytes, value: Bytes)
    requires |value| <= MaxValueLength
    ensures OutputLines([Entry(dn, [EntryAttribute(name, [value])])])
         == [Ascii("dn: ") + dn, name + Ascii(": ") + value]
  {
  }
}
