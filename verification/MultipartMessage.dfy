/** The methods of a multipart message: they write to a stream and take a body apart by erasing
    what was read from it. */
module MultipartMessage {
  import opened Multipart
  import opened Options
  import opened Sequences
  import opened TextAt

  /** A part under its name. */
  datatype Entry = Entry(name: string, part: Part)

  function Entries(parts: seq<Part>): (es: seq<Entry>)
    requires AllNamed(parts)
    ensures |es| == |parts|
  {
    seq(|parts|, i requires 0 <= i < |parts| => Entry(NameOf(parts[i]).value, parts[i]))
  }

  lemma EntriesMore(parts: seq<Part>, p: Part)
    requires AllNamed(parts) && NameOf(p).Some?
    ensures AllNamed(parts + [p]) && Entries(parts + [p]) == Entries(parts) + [Entry(NameOf(p).value, p)]
  {
    hide NameOf;
  }

  class Message {
    var boundary: string
    var parts: seq<Part>
    var partMap: seq<Entry>

    /** The map holds every part under its name. */
    predicate Valid()
      reads this`parts, this`partMap
    {
      AllNamed(parts) && partMap == Entries(parts)
    }

    /** Without a name the source would use the end of a map as an entry, so every part must have one. */
    constructor (boundary: string, parts: seq<Part>)
      requires AllNamed(parts)
      ensures Valid() && this.boundary == boundary && this.parts == parts
    {
      hide NameOf;
      var entries := [];
      for i := 0 to |parts|
        invariant AllNamed(parts[..i]) && entries == Entries(parts[..i])
      {
        EntriesMore(parts[..i], parts[i]);
        assert parts[..i] + [parts[i]] == parts[..i + 1];
        entries := entries + [Entry(NameOf(parts[i]).value, parts[i])];
      }
      assert parts[..|parts|] == parts;
      this.boundary, this.parts, this.partMap := boundary, parts, entries;
    }

    /** A part of this name, whatever the case of its letters, or an empty part if there is none. */
    method GetPartByName(name: string) returns (p: Part)
      requires Valid()
      ensures if exists i :: 0 <= i < |parts| && SameKey(NameOf(parts[i]).value, name) then
                p in parts && SameKey(NameOf(p).value, name)
              else p == Part([], "")
    {
      hide NameOf, SameKey;
      for i := 0 to |partMap|
        invariant forall j :: 0 <= j < i ==> !SameKey(NameOf(parts[j]).value, name)
      {
        if SameKey(partMap[i].name, name) { return partMap[i].part; }
      }
      return Part([], "");
    }

    function Delimiter(): (d: string)
      reads this`boundary
      ensures d == "--" + boundary
    {
      DASHES + boundary
    }

    method DumpHeader(f: Field, str: string) returns (out: string)
      ensures out == str + (DumpLine(f) + CRLF)
    {
      hide DumpParam;
      out := str + f.key + ": " + f.header.value;
      ghost var head := f.key + ": " + f.header.value;
      assert out == str + head;
      var ps := f.header.params;
      for i := 0 to |ps|
        invariant out + DumpParams(ps[i..]) == str + (head + DumpParams(ps))
      {
        assert ps[i..][1..] == ps[i + 1..];
        Associate(out, DumpParam(ps[i]), DumpParams(ps[i + 1..]));
        out := out + DumpParam(ps[i]);
      }
      assert ps[|ps|..] == [];
      Associate(str, DumpLine(f), CRLF);
      out := out + CRLF;
    }

    method DumpOne(p: Part, str: string) returns (out: string)
      ensures out == str + DumpPart(p)
    {
      hide DumpLine;
      out := str;
      var fs := p.fields;
      for i := 0 to |fs|
        invariant out + DumpFields(fs[i..]) == str + DumpFields(fs)
      {
        assert fs[i..][1..] == fs[i + 1..];
        Associate(out, DumpLine(fs[i]) + CRLF, DumpFields(fs[i + 1..]));
        out := DumpHeader(fs[i], out);
      }
      assert fs[|fs|..] == [];
      Enclose(str, DumpFields(fs), CRLF, p.body);
      out := out + CRLF;
      out := out + p.body + CRLF;
    }

    /** All parts as one text. */
    method Dump() returns (out: string)
      ensures out == DumpParts(parts, Delimiter())
    {
      hide DumpPart;
      var delimiter := Delimiter();
      out := "";
      for i := 0 to |parts|
        invariant out + DumpParts(parts[i..], delimiter) == DumpParts(parts, delimiter)
      {
        assert parts[i..][1..] == parts[i + 1..];
        Associate(out, delimiter + CRLF + DumpPart(parts[i]), DumpParts(parts[i + 1..], delimiter));
        Associate(out, delimiter + CRLF, DumpPart(parts[i]));
        out := out + (delimiter + CRLF);
        out := DumpOne(parts[i], out);
      }
      assert parts[|parts|..] == [];
      out := out + (delimiter + DASHES + CRLF);
    }

    method ParseParameters(text: string) returns (ps: seq<Param>)
      ensures ps == ParseParams(text, [])
    {
      hide Find, ParseParam, Emplace, Holds;
      var line := text;
      ps := [];
      while line != ""
        invariant ParseParams(line, ps) == ParseParams(text, [])
        decreases |line|
      {
        var found := Find(line, "; ", 0);
        var param := line[..found];
        line := Beyond(line, found);
        ps := Emplace(ps, ParseParam(param));
      }
    }

    method ParseHeader(line: string) returns (f: Option<Field>)
      ensures f == ParseLine(line)
    {
      hide Find, Holds, Beyond, ParseParams;
      if line == "" { return Some(Field("", Header("", []))); }
      var found := Find(line, "; ", 0);
      var header, rest := line[..found], Beyond(line, found);
      var split := Find(header, ": ", 0);
      if header == "" { return None; }
      var value := if split < |header| then header[split + 2..] else header[1..];
      var ps := ParseParameters(rest);
      return Some(Field(header[..split], Header(value, ps)));
    }

    method ParseSectionHead(text: string) returns (fields: Option<seq<Field>>)
      ensures fields == ParseHead(text, [])
    {
      hide Find, Holds, ParseLine;
      var lines, fs := text, [];
      while lines != ""
        invariant ParseHead(lines, fs) == ParseHead(text, [])
        decreases |lines|
      {
        var found := Find(lines, CRLF, 0);
        var f := ParseHeader(lines[..found]);
        lines := if found < |lines| then lines[found + 2..] else lines[1..];
        if f.None? { return None; }
        fs := fs + [f.value];
      }
      return Some(fs);
    }

    method ParseOne(text: string) returns (p: Option<Part>)
      ensures p == ParseSection(text)
    {
      hide Find, Holds, ParseHead;
      var section := text;
      var found := Find(section, CRLF + CRLF, 0);
      var head;
      if found == |section| {
        head := if |section| < 1 then section else section[..1];
        section := From(section, 3);
      } else {
        head := section[..found + 2];
        section := section[found + 4..];
      }
      var fields := ParseSectionHead(head);
      if fields.None? { return None; }
      return Some(Part(fields.value, DropLast2(section)));
    }

    /** Reads the parts of a body; a header that cannot be split, or a part without a name, ends the
        reading. */
    method Parse(text: string) returns (ok: bool)
      modifies this`parts, this`partMap
      ensures match ParseBody(text, Delimiter(), [])
              case None => !ok
              case Some(ps) => ok && parts == ps && Valid()
    {
      hide Find, Holds, ParseSection, From, Delimiter, NameOf;
      var body, sections, delimiter := text, [], Delimiter();
      var entries := [];
      while body != CRLF && body != ""
        invariant ParseBody(body, delimiter, sections) == ParseBody(text, delimiter, [])
        invariant AllNamed(sections) && entries == Entries(sections)
        decreases |body|
      {
        var found := Find(body, delimiter, 0);
        if found == |body| { break; }
        var section := body[..found];
        FromShorter(body, found + |delimiter| + 2);
        body := From(body, found + |delimiter| + 2);
        if section != "" {
          var p := ParseOne(section);
          if p.None? || NameOf(p.value).None? { return false; }
          EntriesMore(sections, p.value);
          entries := entries + [Entry(NameOf(p.value).value, p.value)];
          sections := sections + [p.value];
        }
      }
      parts, partMap := sections, entries;
      return true;
    }

    /** Reading what another message wrote gives its parts, exactly if all of them have a name. */
    method Copy(from: Message) returns (ok: bool)
      requires boundary == from.boundary && Writable(from.parts, from.Delimiter())
      modifies this`parts, this`partMap
      ensures ok && parts == old(from.parts) <==> AllNamed(old(from.parts))
      ensures AllHeaded(old(from.parts)) && !AllNamed(old(from.parts)) ==> !ok
      ensures ok ==> Valid()
    {
      hide Writable, DumpParts, ParseBody;
      MessageRead(from.parts, from.Delimiter());
      var text := from.Dump();
      ok := Parse(text);
    }
  }

  lemma FromShorter(s: string, i: nat)
    requires 0 < i && s != ""
    ensures |From(s, i)| < |s|
  {
  }

  lemma Enclose(a: string, b: string, c: string, d: string)
    ensures a + b + c + d + c == a + (b + c + d + c)
    ensures forall s: string :: s + "" == s
  {
  }
}
