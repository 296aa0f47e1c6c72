/** `parse_xml_attribute`: a left-to-right scan for a start tag and its end tag. */
module XmlFields {
  import opened Options

  /** A stretch of the buffer. */
  datatype Slice = Slice(start: nat, len: nat)

  /** strncmp against the buffer at i: the keys hold no NUL, so all their characters must be there. */
  predicate MatchAt(text: string, i: nat, key: string) {
    i <= |text| && key <= text[i..]
  }

  /** The scan from position i, with the current value starting at j. After a start tag one
      character is skipped unread. */
  function Scan(text: string, startKey: string, endKey: string, i: nat, j: nat): (r: Option<Slice>)
    requires j <= i
    ensures r.Some? ==> r.value.start + r.value.len < |text|
    decreases |text| - i
  {
    if i >= |text| then None
    else if MatchAt(text, i, startKey) then
      Scan(text, startKey, endKey, i + |startKey| + 1, i + |startKey|)
    else if MatchAt(text, i, endKey) then Some(Slice(j, i - j))
    else Scan(text, startKey, endKey, i + 1, j)
  }

  function Parsed(text: string, startKey: string, endKey: string): Option<Slice> {
    if text == "" || text[0] == '\0' then None else Scan(text, startKey, endKey, 0, 0)
  }

  /** The routine itself. The returned stretch always lies inside the buffer. */
  method ParseXmlAttribute(text: string, startKey: string, endKey: string)
    returns (rc: int, s: nat, len: nat)
    ensures rc == 1 || (rc == 0 && len == 0)
    ensures rc == 1 ==> s + len < |text|
    ensures Parsed(text, startKey, endKey) == if rc == 1 then Some(Slice(s, len)) else None
  {
    if text != "" && text[0] != '\0' {
      var i, j := 0, 0;
      while i < |text|
        invariant 0 <= j <= i
        invariant Scan(text, startKey, endKey, i, j) == Scan(text, startKey, endKey, 0, 0)
        decreases |text| - i
      {
        if startKey <= text[i..] {
          i := i + |startKey|;
          j := i;
        } else if endKey <= text[i..] {
          return 1, j, i - j;
        }
        i := i + 1;
      }
    }
    return 0, 0, 0;
  }

  // The scan over a text, for any pair of keys.

  /** Before `rest`, no position inside `a` starts one of the keys. */
  ghost predicate Quiet(a: string, rest: string, startKey: string, endKey: string) {
    forall p :: 0 <= p < |a| ==> !(startKey <= (a + rest)[p..]) && !(endKey <= (a + rest)[p..])
  }

  /** Keys shaped like tags: '<' at the front and nowhere else, and neither begins the other. */
  ghost predicate TagKeys(startKey: string, endKey: string) {
    && startKey != "" && startKey[0] == '<'
    && endKey != "" && endKey[0] == '<' && '<' !in endKey[1..]
    && !(startKey <= endKey) && !(endKey <= startKey)
  }

  lemma QuietConcat(a: string, b: string, rest: string, startKey: string, endKey: string)
    requires Quiet(a, b + rest, startKey, endKey) && Quiet(b, rest, startKey, endKey)
    ensures Quiet(a + b, rest, startKey, endKey)
  {
    assert a + b + rest == a + (b + rest);
    forall p | 0 <= p < |a + b|
      ensures !(startKey <= (a + b + rest)[p..]) && !(endKey <= (a + b + rest)[p..])
    {
      if p >= |a| {
        assert (a + b + rest)[p..] == (b + rest)[p - |a|..];
      }
    }
  }

  lemma QuietPlain(a: string, rest: string, startKey: string, endKey: string)
    requires '<' !in a && TagKeys(startKey, endKey)
    ensures Quiet(a, rest, startKey, endKey)
  {
    forall p | 0 <= p < |a|
      ensures !(startKey <= (a + rest)[p..]) && !(endKey <= (a + rest)[p..])
    {
      assert (a + rest)[p..][0] == a[p];
    }
  }

  lemma QuietTail(a: string, rest: string, startKey: string, endKey: string)
    requires a != "" && Quiet(a, rest, startKey, endKey)
    ensures Quiet(a[1..], rest, startKey, endKey)
  {
    forall p | 0 <= p < |a[1..]|
      ensures !(startKey <= (a[1..] + rest)[p..]) && !(endKey <= (a[1..] + rest)[p..])
    {
      assert (a[1..] + rest)[p..] == (a + rest)[p + 1..];
    }
  }

  lemma QuietHead(a: string, rest: string, startKey: string, endKey: string)
    requires a != "" && !(startKey <= a + rest) && !(endKey <= a + rest)
    requires Quiet(a[1..], rest, startKey, endKey)
    ensures Quiet(a, rest, startKey, endKey)
  {
    forall p | 0 <= p < |a|
      ensures !(startKey <= (a + rest)[p..]) && !(endKey <= (a + rest)[p..])
    {
      if p == 0 {
        assert (a + rest)[0..] == a + rest;
      } else {
        assert (a + rest)[p..] == (a[1..] + rest)[p - 1..];
      }
    }
  }

  /** The scan passes over a quiet stretch without effect. */
  lemma {:induction false} ScanSkips(text: string, startKey: string, endKey: string, i: nat, k: nat, j: nat)
    requires j <= i <= k <= |text|
    requires Quiet(text[i..k], text[k..], startKey, endKey)
    ensures Scan(text, startKey, endKey, i, j) == Scan(text, startKey, endKey, k, j)
    decreases k - i
  {
    if i < k {
      assert (text[i..k] + text[k..])[0..] == text[i..];
      assert text[i..k][1..] == text[i + 1..k];
      QuietTail(text[i..k], text[k..], startKey, endKey);
      ScanSkips(text, startKey, endKey, i + 1, k, j);
    }
  }

  lemma ScanToEnd(text: string, startKey: string, endKey: string, i: nat, j: nat)
    requires j <= i <= |text| && Quiet(text[i..], "", startKey, endKey)
    ensures Scan(text, startKey, endKey, i, j) == None
  {
    assert text[i..|text|] == text[i..];
    assert text[|text|..] == "";
    ScanSkips(text, startKey, endKey, i, |text|, j);
  }

  /** After a start tag at p the scan goes on one character into what follows. */
  lemma ScanOpens(text: string, startKey: string, endKey: string, p: nat, q: nat, j: nat)
    requires j <= p <= q <= |text| && text[p..q] == startKey && startKey != ""
    ensures Scan(text, startKey, endKey, p, j) == Scan(text, startKey, endKey, q + 1, q)
  {
    assert text[p..][..q - p] == startKey;
  }

  lemma ScanMeetsEnd(text: string, startKey: string, endKey: string, e: nat, z: nat, q: nat)
    requires q <= e <= z <= |text| && text[e..z] == endKey && TagKeys(startKey, endKey)
    ensures Scan(text, startKey, endKey, e, q) == Some(Slice(q, e - q))
  {
    assert text[e..][..z - e] == endKey;
  }

  /** A stretch that is not empty ends at its end tag. */
  lemma ScanCloses(text: string, startKey: string, endKey: string, q: nat, e: nat, z: nat)
    requires q < e <= z <= |text| && text[e..z] == endKey && TagKeys(startKey, endKey)
    requires Quiet(text[q..e], text[e..], startKey, endKey)
    ensures Scan(text, startKey, endKey, q + 1, q) == Some(Slice(q, e - q))
  {
    assert text[q..e][1..] == text[q + 1..e];
    QuietTail(text[q..e], text[e..], startKey, endKey);
    ScanSkips(text, startKey, endKey, q + 1, e, q);
    ScanMeetsEnd(text, startKey, endKey, e, z, q);
  }

  /** The end tag of an empty stretch hides behind the skipped character. */
  lemma ScanMissesEmpty(text: string, startKey: string, endKey: string, q: nat, z: nat)
    requires q < z <= |text| && text[q..z] == endKey && TagKeys(startKey, endKey)
    requires Quiet(text[z..], "", startKey, endKey)
    ensures Scan(text, startKey, endKey, q + 1, q) == None
  {
    assert text[q + 1..z] == text[q..z][1..];
    QuietPlain(text[q + 1..z], text[z..], startKey, endKey);
    ScanSkips(text, startKey, endKey, q + 1, z, q);
    ScanToEnd(text, startKey, endKey, z, q);
  }

  /** One tagged stretch [q, e) between quiet ones, its tags being [p, q) and [e, z): it is found
      exactly if it is not empty. */
  lemma ScanFindsTagged(text: string, startKey: string, endKey: string, p: nat, q: nat, e: nat, z: nat)
    requires p <= q <= e <= z <= |text| && TagKeys(startKey, endKey)
    requires text[p..q] == startKey && text[e..z] == endKey
    requires Quiet(text[..p], text[p..], startKey, endKey)
    requires Quiet(text[q..e], text[e..], startKey, endKey)
    requires Quiet(text[z..], "", startKey, endKey)
    ensures Scan(text, startKey, endKey, 0, 0) == if q == e then None else Some(Slice(q, e - q))
  {
    assert text[0..p] == text[..p];
    ScanSkips(text, startKey, endKey, 0, p, 0);
    ScanOpens(text, startKey, endKey, p, q, 0);
    if q == e {
      ScanMissesEmpty(text, startKey, endKey, q, z);
    } else {
      ScanCloses(text, startKey, endKey, q, e, z);
    }
  }

  lemma Cut(text: string, a: string, b: string, i: nat)
    requires i <= |text| && text[i..] == a + b
    ensures i + |a| <= |text| && text[i..i + |a|] == a && text[i + |a|..] == b
  {
    assert text[i..][..|a|] == a && text[i..][|a|..] == b;
  }

  /** What a slice of a text reads; nothing for a key that was not found. */
  function ReadOut(text: string, r: Option<Slice>): string
    requires r.Some? ==> r.value.start + r.value.len <= |text|
  {
    if r.Some? then text[r.value.start..r.value.start + r.value.len] else ""
  }

  /** A text in five parts: before, start key, body, end key, after. `tail` is the text from the
      start key on and `rest` that from the end key on. */
  datatype Cuts = Cuts(text: string, before: string, tail: string, startKey: string, body: string,
                       rest: string, endKey: string, after: string)
  {
    function P(): nat { |before| }
    function Q(): nat { |before| + |startKey| }
    function E(): nat { |before| + |startKey| + |body| }
    function Z(): nat { |before| + |startKey| + |body| + |endKey| }

    ghost predicate Placed() {
      && Z() <= |text|
      && text[..P()] == before && text[P()..] == tail && text[P()..Q()] == startKey
      && text[Q()..E()] == body && text[E()..] == rest
      && text[E()..Z()] == endKey && text[Z()..] == after
    }
  }

  function CutsOf(before: string, startKey: string, body: string, endKey: string, after: string): Cuts {
    var rest := endKey + after;
    var tail := startKey + (body + rest);
    Cuts(before + tail, before, tail, startKey, body, rest, endKey, after)
  }

  lemma CutsArePlaced(before: string, startKey: string, body: string, endKey: string, after: string)
    ensures CutsOf(before, startKey, body, endKey, after).Placed()
  {
    var c := CutsOf(before, startKey, body, endKey, after);
    assert c.text[0..] == c.text;
    Cut(c.text, before, c.tail, 0);
    Cut(c.text, startKey, body + c.rest, c.P());
    Cut(c.text, body, c.rest, c.Q());
    Cut(c.text, endKey, after, c.E());
  }

  /** What stands between the keys is what the scan reads, when the keys occur nowhere else. */
  lemma ScanReadsBetween(c: Cuts)
    requires c.Placed() && TagKeys(c.startKey, c.endKey)
    requires Quiet(c.before, c.tail, c.startKey, c.endKey)
    requires Quiet(c.body, c.rest, c.startKey, c.endKey) && Quiet(c.after, "", c.startKey, c.endKey)
    ensures ReadsExactly(c.text, Scan(c.text, c.startKey, c.endKey, 0, 0), c.body)
  {
    ScanFindsTagged(c.text, c.startKey, c.endKey, c.P(), c.Q(), c.E(), c.Z());
    SliceReads(c.text, c.Q(), c.body);
  }

  /** Something is found exactly if there is something to read, and that is what the slice reads. */
  predicate ReadsExactly(text: string, r: Option<Slice>, value: string) {
    && (r.Some? <==> value != "")
    && (r.Some? ==> r.value.start + r.value.len <= |text|)
    && ReadOut(text, r) == value
  }

  lemma SliceReads(text: string, q: nat, body: string)
    requires q + |body| <= |text| && text[q..q + |body|] == body
    ensures ReadsExactly(text, if body == "" then None else Some(Slice(q, |body|)), body)
  {
  }

  // Messages made of fields.

  datatype Field = Field(name: string, value: string)

  function Open(name: string): string { "<" + name + ">" }

  function Close(name: string): string { "</" + name + ">" }

  function FieldText(f: Field): string {
    Open(f.name) + f.value + Close(f.name)
  }

  function Document(fs: seq<Field>): string {
    if fs == [] then "" else FieldText(fs[0]) + Document(fs[1..])
  }

  /** A message: fields, on their own or inside one outer tag. */
  function Message(fs: seq<Field>, outer: Option<string>): string {
    match outer
    case None => Document(fs)
    case Some(tag) => Open(tag) + Document(fs) + Close(tag)
  }

  predicate PlainName(name: string) {
    '<' !in name && '>' !in name && (name != "" ==> name[0] != '/')
  }

  ghost predicate WellFormed(fs: seq<Field>, outer: Option<string>) {
    && (forall i :: 0 <= i < |fs| ==> PlainName(fs[i].name) && '<' !in fs[i].value)
    && (forall i, j :: 0 <= i < j < |fs| ==> fs[i].name != fs[j].name)
    && (outer.Some? ==> PlainName(outer.value) && NotNamed(fs, outer.value))
  }

  ghost predicate NotNamed(fs: seq<Field>, name: string) {
    forall i :: 0 <= i < |fs| ==> fs[i].name != name
  }

  /** The value of the field with the name, or the empty string. */
  function ValueOf(fs: seq<Field>, name: string): string {
    if fs == [] then "" else if fs[0].name == name then fs[0].value else ValueOf(fs[1..], name)
  }

  lemma TagsAreKeys(name: string)
    requires PlainName(name)
    ensures TagKeys(Open(name), Close(name))
  {
    assert Close(name)[1..] == "/" + name + ">";
    assert Open(name)[1] == (name + ">")[0] != '/' == Close(name)[1];
  }

  /** Before `rest`, no position inside `a` starts a tag of the name. */
  ghost predicate NoTag(a: string, rest: string, name: string) {
    Quiet(a, rest, Open(name), Close(name))
  }

  lemma NoTagConcat(a: string, b: string, rest: string, name: string)
    requires NoTag(a, b + rest, name) && NoTag(b, rest, name)
    ensures NoTag(a + b, rest, name)
  {
    QuietConcat(a, b, rest, Open(name), Close(name));
  }

  lemma NoTagInPlain(a: string, rest: string, name: string)
    requires '<' !in a && PlainName(name)
    ensures NoTag(a, rest, name)
  {
    TagsAreKeys(name);
    QuietPlain(a, rest, Open(name), Close(name));
  }

  lemma NamePrefix(k: string, n: string, rest: string)
    requires PlainName(k) && PlainName(n) && k + ">" <= n + ">" + rest
    ensures k == n
  {
    var t := n + ">" + rest;
    assert t[|k|] == '>' && t[|n|] == '>';
    assert |k| == |n|;
    assert k == t[..|k|] == n;
  }

  lemma NoTagInOpen(n: string, rest: string, name: string)
    requires PlainName(n) && PlainName(name) && n != name
    ensures NoTag(Open(n), rest, name)
  {
    var t := Open(n) + rest;
    assert Open(n)[1..] == n + ">" && t[1..] == n + ">" + rest;
    assert t[1] == (n + ">")[0] != '/' == Close(name)[1];
    if Open(name) <= t {
      assert Open(name)[1..] == name + ">";
      NamePrefix(name, n, rest);
    }
    NoTagInPlain(n + ">", rest, name);
    QuietHead(Open(n), rest, Open(name), Close(name));
  }

  lemma NoTagInClose(n: string, rest: string, name: string)
    requires PlainName(n) && PlainName(name) && n != name
    ensures NoTag(Close(n), rest, name)
  {
    var t := Close(n) + rest;
    assert Close(n)[1..] == "/" + n + ">" && t[2..] == n + ">" + rest;
    assert Open(name)[1] == (name + ">")[0] != '/' == t[1];
    if Close(name) <= t {
      assert Close(name)[2..] == name + ">";
      NamePrefix(name, n, rest);
    }
    NoTagInPlain("/" + n + ">", rest, name);
    QuietHead(Close(n), rest, Open(name), Close(name));
  }

  lemma NoTagInField(f: Field, rest: string, name: string)
    requires PlainName(f.name) && PlainName(name) && f.name != name && '<' !in f.value
    ensures NoTag(FieldText(f), rest, name)
  {
    var o, v, c := Open(f.name), f.value, Close(f.name);
    NoTagInClose(f.name, rest, name);
    NoTagInPlain(v, c + rest, name);
    NoTagConcat(v, c, rest, name);
    NoTagInOpen(f.name, v + c + rest, name);
    NoTagConcat(o, v + c, rest, name);
    assert FieldText(f) == o + (v + c);
  }

  lemma {:induction false} NoTagInDocument(fs: seq<Field>, rest: string, name: string)
    requires WellFormed(fs, None) && PlainName(name) && NotNamed(fs, name)
    ensures NoTag(Document(fs), rest, name)
  {
    if fs != [] {
      NoTagInDocument(fs[1..], rest, name);
      NoTagInField(fs[0], Document(fs[1..]) + rest, name);
      NoTagConcat(FieldText(fs[0]), Document(fs[1..]), rest, name);
    }
  }

  function Prefix(outer: Option<string>): string {
    if outer.Some? then Open(outer.value) else ""
  }

  function Suffix(outer: Option<string>): string {
    if outer.Some? then Close(outer.value) else ""
  }

  lemma {:induction false} DocumentSplit(fs: seq<Field>, gs: seq<Field>)
    ensures Document(fs + gs) == Document(fs) + Document(gs)
  {
    if fs == [] {
      assert fs + gs == gs;
    } else {
      assert (fs + gs)[1..] == fs[1..] + gs;
      DocumentSplit(fs[1..], gs);
    }
  }

  lemma Regroup(a: string, o: string, v: string, c: string, after: string, rest: string)
    ensures a + (o + v + c + after) + rest == a + (o + (v + (c + (after + rest))))
  {
    assert o + v + c + after + rest == o + (v + (c + (after + rest)));
  }

  lemma FieldAround(fs: seq<Field>, k: nat, rest: string)
    requires k < |fs|
    ensures Document(fs) + rest
         == Document(fs[..k])
          + (Open(fs[k].name) + (fs[k].value + (Close(fs[k].name) + (Document(fs[k + 1..]) + rest))))
  {
    assert fs == fs[..k] + fs[k..] && fs[k..][1..] == fs[k + 1..];
    DocumentSplit(fs[..k], fs[k..]);
    var f := fs[k];
    Regroup(Document(fs[..k]), Open(f.name), f.value, Close(f.name), Document(fs[k + 1..]), rest);
  }

  lemma MessageAround(fs: seq<Field>, k: nat, outer: Option<string>)
    requires k < |fs|
    ensures Message(fs, outer)
         == (Prefix(outer) + Document(fs[..k]))
          + (Open(fs[k].name) + (fs[k].value + (Close(fs[k].name) + (Document(fs[k + 1..]) + Suffix(outer)))))
  {
    FieldAround(fs, k, Suffix(outer));
    MessageParts(fs, outer);
    var inner := Open(fs[k].name) + (fs[k].value + (Close(fs[k].name) + (Document(fs[k + 1..]) + Suffix(outer))));
    Assoc(Prefix(outer), Document(fs[..k]), inner);
  }

  lemma MessageParts(fs: seq<Field>, outer: Option<string>)
    ensures Message(fs, outer) == Prefix(outer) + (Document(fs) + Suffix(outer))
  {
    Assoc(Prefix(outer), Document(fs), Suffix(outer));
  }

  lemma Assoc(a: string, b: string, c: string)
    ensures a + (b + c) == a + b + c
  {
  }

  lemma NoTagAround(fs: seq<Field>, outer: Option<string>, rest: string, name: string)
    requires WellFormed(fs, outer) && PlainName(name) && NotNamed(fs, name)
    requires outer.Some? ==> outer.value != name
    ensures NoTag(Prefix(outer) + Document(fs), rest, name)
    ensures NoTag(Document(fs) + Suffix(outer), rest, name)
  {
    NoTagInDocument(fs, rest, name);
    NoTagInDocument(fs, Suffix(outer) + rest, name);
    if outer.Some? {
      NoTagInOpen(outer.value, Document(fs) + rest, name);
      NoTagConcat(Prefix(outer), Document(fs), rest, name);
      NoTagInClose(outer.value, rest, name);
      NoTagConcat(Document(fs), Suffix(outer), rest, name);
    } else {
      assert Document(fs) + "" == Document(fs) && "" + Document(fs) == Document(fs);
      assert "" + rest == rest;
    }
  }

  lemma {:induction false} ValueOfNamed(fs: seq<Field>, k: nat)
    requires k < |fs| && forall i, j :: 0 <= i < j < |fs| ==> fs[i].name != fs[j].name
    ensures ValueOf(fs, fs[k].name) == fs[k].value
  {
    if k > 0 {
      ValueOfNamed(fs[1..], k - 1);
    }
  }

  lemma {:induction false} ValueOfAbsent(fs: seq<Field>, name: string)
    requires NotNamed(fs, name)
    ensures ValueOf(fs, name) == ""
  {
    if fs != [] {
      ValueOfAbsent(fs[1..], name);
    }
  }

  /** A message seen as the five parts around its field k. */
  function CutsAround(fs: seq<Field>, outer: Option<string>, k: nat): Cuts
    requires k < |fs|
  {
    CutsOf(Prefix(outer) + Document(fs[..k]), Open(fs[k].name), fs[k].value, Close(fs[k].name),
           Document(fs[k + 1..]) + Suffix(outer))
  }

  lemma NoTagAroundField(fs: seq<Field>, outer: Option<string>, k: nat)
    requires WellFormed(fs, outer) && k < |fs|
    ensures
      var c, name := CutsAround(fs, outer, k), fs[k].name;
      NoTag(c.before, c.tail, name) && NoTag(c.body, c.rest, name) && NoTag(c.after, "", name)
  {
    var c, name := CutsAround(fs, outer, k), fs[k].name;
    NoTagAround(fs[..k], outer, c.tail, name);
    NoTagAround(fs[k + 1..], outer, "", name);
    NoTagInPlain(fs[k].value, c.rest, name);
  }

  lemma PresentFieldIsRead(fs: seq<Field>, outer: Option<string>, k: nat)
    requires WellFormed(fs, outer) && k < |fs|
    ensures
      var text, name := Message(fs, outer), fs[k].name;
      ReadsExactly(text, Parsed(text, Open(name), Close(name)), fs[k].value)
  {
    var c := CutsAround(fs, outer, k);
    MessageAround(fs, k, outer);
    assert c.text == Message(fs, outer);
    CutsArePlaced(c.before, c.startKey, c.body, c.endKey, c.after);
    TagsAreKeys(fs[k].name);
    NoTagAroundField(fs, outer, k);
    ScanReadsBetween(c);
    MessageStart(fs, outer);
  }

  lemma MessageStart(fs: seq<Field>, outer: Option<string>)
    ensures Message(fs, outer) != "" ==> Message(fs, outer)[0] == '<'
    ensures Message(fs, outer) == "" <==> fs == [] && outer == None
  {
  }

  lemma AbsentFieldIsNotFound(fs: seq<Field>, outer: Option<string>, name: string)
    requires WellFormed(fs, outer) && PlainName(name) && NotNamed(fs, name)
    requires outer.Some? ==> outer.value != name
    ensures Parsed(Message(fs, outer), Open(name), Close(name)) == None
  {
    var text := Message(fs, outer);
    NoTagAround(fs, outer, Suffix(outer), name);
    NoTagAround([], outer, "", name);
    assert Document([]) + Suffix(outer) == Suffix(outer);
    assert Suffix(outer) + "" == Suffix(outer);
    NoTagConcat(Prefix(outer) + Document(fs), Suffix(outer), "", name);
    assert text == Prefix(outer) + Document(fs) + Suffix(outer);
    assert text[0..] == text;
    ScanToEnd(text, Open(name), Close(name), 0, 0);
  }

  /** Extraction is exact: for a message of fields with distinct names and values free of '<', on
      their own or in an outer tag, every key reads out the value of its field, and a key is found
      if and only if it has a value that is not empty. */
  lemma ParseReadsFields(fs: seq<Field>, outer: Option<string>, name: string)
    requires WellFormed(fs, outer) && PlainName(name)
    requires outer.Some? ==> outer.value != name
    ensures
      var text := Message(fs, outer);
      ReadsExactly(text, Parsed(text, Open(name), Close(name)), ValueOf(fs, name))
  {
    if NotNamed(fs, name) {
      AbsentFieldIsNotFound(fs, outer, name);
      ValueOfAbsent(fs, name);
    } else {
      var k :| 0 <= k < |fs| && fs[k].name == name;
      PresentFieldIsRead(fs, outer, k);
      ValueOfNamed(fs, k);
    }
  }

  lemma WrappedIsRead(body: string, tag: string)
    requires PlainName(tag) && NoTag(body, Close(tag), tag)
    ensures
      var text := Open(tag) + (body + Close(tag));
      ReadsExactly(text, Parsed(text, Open(tag), Close(tag)), body)
  {
    var text := Open(tag) + (body + Close(tag));
    assert Close(tag) + "" == Close(tag);
    assert text == "" + (Open(tag) + (body + (Close(tag) + "")));
    TagsAreKeys(tag);
    CutsArePlaced("", Open(tag), body, Close(tag), "");
    ScanReadsBetween(CutsOf("", Open(tag), body, Close(tag), ""));
  }

  /** The dispatcher's test for the outer tag: it is found exactly in a message wrapped in it that
      has at least one field, and then reads out all the fields. */
  lemma ParseDetectsOuterTag(fs: seq<Field>, tag: string)
    requires WellFormed(fs, Some(tag))
    ensures Parsed(Message(fs, None), Open(tag), Close(tag)) == None
    ensures
      var text := Message(fs, Some(tag));
      ReadsExactly(text, Parsed(text, Open(tag), Close(tag)), Document(fs))
    ensures Document(fs) == "" <==> fs == []
  {
    AbsentFieldIsNotFound(fs, None, tag);
    NoTagInDocument(fs, Close(tag), tag);
    WrappedIsRead(Document(fs), tag);
    MessageParts(fs, Some(tag));
    MessageStart(fs, None);
  }
}
