/** The result formatter: `printEntry` and the printing block of `main`.
    Standard output is modelled as the sequence of lines written to it; each
    `Printf` call writes one line followed by a newline, and the separator
    `Print("\n")` writes the empty line. */
module Format {
  import opened ByteStrings
  import opened Ldap

  /** Values longer than this many bytes are not printed. */
  const MaxValueLength: nat := 100

  /** What is printed in place of a value that is too long. */
  const LongMarker: Bytes := Ascii("<long>")

  const DnPrefix: Bytes := Ascii("dn: ")

  const NameSeparator: Bytes := Ascii(": ")

  /** What is printed for a value: the value itself, or the marker when it is
      longer than the limit. A value is printed verbatim exactly when it fits. */
  function ShownValue(value: Bytes): (shown: Bytes)
    ensures |shown| <= MaxValueLength
    ensures shown == value <==> |value| <= MaxValueLength
  {
    if |value| > MaxValueLength then LongMarker else value
  }

  function DnLine(dn: Bytes): Bytes {
    DnPrefix + dn
  }

  function ValueLine(name: Bytes, value: Bytes): Bytes {
    name + NameSeparator + ShownValue(value)
  }

  /** The lines of one attribute: one per value, in value order, each carrying
      the attribute's name. */
  function ValueLines(name: Bytes, values: seq<Bytes>): (lines: seq<Bytes>)
    ensures |lines| == |values|
  {
    if values == [] then [] else [ValueLine(name, values[0])] + ValueLines(name, values[1..])
  }

  /** The number of values of a list of attributes. */
  function ValueCount(attributes: seq<EntryAttribute>): nat {
    if attributes == [] then 0 else |attributes[0].values| + ValueCount(attributes[1..])
  }

  /** The attribute lines of an entry: one line per value of every attribute. */
  function AttributeLines(attributes: seq<EntryAttribute>): (lines: seq<Bytes>)
    ensures |lines| == ValueCount(attributes)
  {
    if attributes == [] then []
    else ValueLines(attributes[0].name, attributes[0].values) + AttributeLines(attributes[1..])
  }

  /** The block `printEntry` writes for one entry. */
  function EntryLines(entry: Entry): seq<Bytes> {
    [DnLine(entry.dn)] + AttributeLines(entry.attributes)
  }

  /** The blocks of the entries after the first, each preceded by a blank line. */
  function SeparatedBlocks(entries: seq<Entry>): seq<Bytes> {
    if entries == [] then [] else [[]] + (EntryLines(entries[0]) + SeparatedBlocks(entries[1..]))
  }

  /** Everything the program writes for a search result. */
  function OutputLines(entries: seq<Entry>): seq<Bytes> {
    if entries == [] then [] else EntryLines(entries[0]) + SeparatedBlocks(entries[1..])
  }

  // ---------------------------------------------------------------------
  // The printing code

  /** `printEntry`: the DN line, then a line per value of each attribute. */
  method PrintEntry(entry: Entry) returns (out: seq<Bytes>)
    ensures out == EntryLines(entry)
  {
    out := [DnPrefix + entry.dn];
    for i := 0 to |entry.attributes|
      invariant out == [DnLine(entry.dn)] + AttributeLines(entry.attributes[..i])
    {
      var attribute := entry.attributes[i];
      var lines := PrintValues(attribute.name, attribute.values);
      ghost var done := AttributeLines(entry.attributes[..i]);
      out := out + lines;
      assert out == [DnLine(entry.dn)] + (done + lines);
      assert entry.attributes[..i + 1] == entry.attributes[..i] + [attribute];
      AttributeLinesSnoc(entry.attributes[..i], attribute);
    }
    assert entry.attributes[..|entry.attributes|] == entry.attributes;
  }

  /** The inner loop of `printEntry`: one `name: value` line per value, with
      an over-long value replaced by the marker. */
  method PrintValues(name: Bytes, values: seq<Bytes>) returns (lines: seq<Bytes>)
    ensures lines == ValueLines(name, values)
  {
    lines := [];
    for j := 0 to |values|
      invariant lines == ValueLines(name, values[..j])
    {
      var value := values[j];
      var line;
      if |value| > MaxValueLength {
        line := name + NameSeparator + LongMarker;
      } else {
        line := name + NameSeparator + value;
      }
      assert line == ValueLine(name, value);
      lines := lines + [line];
      ValueLinesSnoc(name, values[..j], value);
      assert values[..j + 1] == values[..j] + [value];
    }
    assert values[..|values|] == values;
  }

  /** The printing block of `main`: nothing for no entries, otherwise the first
      entry's block and then, for each further entry, a blank line and its block. */
  method PrintResults(entries: seq<Entry>) returns (out: seq<Bytes>)
    ensures out == OutputLines(entries)
  {
    out := [];
    if |entries| > 0 {
      out := PrintEntry(entries[0]);
      if |entries| > 1 {
        var rest := entries[1..];
        for k := 0 to |rest|
          invariant out == EntryLines(entries[0]) + SeparatedBlocks(rest[..k])
        {
          var block := PrintEntry(rest[k]);
          ghost var done := SeparatedBlocks(rest[..k]);
          out := out + [[]] + block;
          assert out == EntryLines(entries[0]) + (done + [[]] + block);
          assert rest[..k + 1] == rest[..k] + [rest[k]];
          SeparatedBlocksSnoc(rest[..k], rest[k]);
        }
        assert rest[..|rest|] == rest;
      }
    }
  }

  // ---------------------------------------------------------------------
  // Lemmas used by the printing code

  lemma {:induction false} ValueLinesSnoc(name: Bytes, values: seq<Bytes>, value: Bytes)
    ensures ValueLines(name, values + [value]) == ValueLines(name, values) + [ValueLine(name, value)]
  {
    if values == [] {
      assert [] + [value] == [value];
      assert [value][1..] == [];
    } else {
      assert (values + [value])[1..] == values[1..] + [value];
      ValueLinesSnoc(name, values[1..], value);
    }
  }

  lemma {:induction false} AttributeLinesSnoc(attributes: seq<EntryAttribute>, attribute: EntryAttribute)
    ensures AttributeLines(attributes + [attribute])
         == AttributeLines(attributes) + ValueLines(attribute.name, attribute.values)
  {
    if attributes == [] {
      assert [] + [attribute] == [attribute];
      assert [attribute][1..] == [];
    } else {
      assert (attributes + [attribute])[1..] == attributes[1..] + [attribute];
      AttributeLinesSnoc(attributes[1..], attribute);
    }
  }

  lemma {:induction false} SeparatedBlocksSnoc(entries: seq<Entry>, entry: Entry)
    ensures SeparatedBlocks(entries + [entry]) == SeparatedBlocks(entries) + [[]] + EntryLines(entry)
  {
    if entries == [] {
      assert ([] + [entry])[1..] == [];
    } else {
      assert (entries + [entry])[1..] == entries[1..] + [entry];
      SeparatedBlocksSnoc(entries[1..], entry);
    }
  }
}
