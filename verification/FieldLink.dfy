/** Links to a field of an audit, printed as `key=value;...` with percent-encoded values
    (core/audit_field_links.py). */
module FieldLinks {
  import opened Wrappers
  import opened Text
  import opened Percent

  datatype AuditFieldLink = AuditFieldLink(
    auditId: string,
    auditKey: string,
    machineNumber: string,
    toolNumber: string,
    fieldKey: string,
    fieldLabel: string,
    page: string,
    createdAt: string)

  const DEFAULT_PAGE := "EOAT Audit"

  /* The keys of the printed pairs. */

  function AuditIdKey(): string { "audit_id" }
  function AuditKeyKey(): string { "audit_key" }
  function MachineKey(): string { "machine" }
  function ToolKey(): string { "tool" }
  function FieldKeyKey(): string { "field_key" }
  function FieldLabelKey(): string { "field_label" }
  function PageKey(): string { "page" }
  function CreatedAtKey(): string { "created_at" }

  function Keys(): (keys: seq<string>)
    ensures |keys| == 8
  {
    [AuditIdKey(), AuditKeyKey(), MachineKey(), ToolKey(), FieldKeyKey(), FieldLabelKey(), PageKey(), CreatedAtKey()]
  }

  function Values(link: AuditFieldLink): (values: seq<string>)
    ensures |values| == 8
  {
    [link.auditId, link.auditKey, link.machineNumber, link.toolNumber, link.fieldKey, link.fieldLabel, link.page,
     link.createdAt]
  }

  function Pair(key: string, value: string): string
  {
    key + "=" + Quote(value)
  }

  /** The pairs with a value, in order. */
  function Pairs(keys: seq<string>, values: seq<string>): seq<string>
    requires |keys| == |values|
  {
    if keys == [] then []
    else (if values[0] == "" then [] else [Pair(keys[0], values[0])]) + Pairs(keys[1..], values[1..])
  }

  /** `serialize_audit_field_link` on a link. */
  function Serialize(link: AuditFieldLink): string
  {
    Join(Pairs(Keys(), Values(link)), ';')
  }

  /** One round of the parsing loop: a part without a key is passed over, a later part wins. */
  function WithPart(data: map<string, string>, part: string): map<string, string>
  {
    var i := Find(part, '=');
    if i == |part| then data
    else
      var key := Strip(part[..i]);
      if key == "" then data else data[key := Unquote(Strip(part[i + 1..]))]
  }

  function Collect(parts: seq<string>): map<string, string>
  {
    if parts == [] then map[] else WithPart(Collect(parts[..|parts| - 1]), parts[|parts| - 1])
  }

  /** `_text(data.get(key))`. */
  function Field(data: map<string, string>, key: string): string
  {
    if key in data then Strip(data[key]) else ""
  }

  function Link(data: map<string, string>): Option<AuditFieldLink>
  {
    var key := Field(data, FieldKeyKey());
    var title := if Field(data, FieldLabelKey()) != "" then Field(data, FieldLabelKey()) else key;
    if key == "" && title == "" then None
    else Some(AuditFieldLink(
      Field(data, AuditIdKey()), Field(data, AuditKeyKey()), Field(data, MachineKey()), Field(data, ToolKey()),
      if key != "" then key else title, title,
      if Field(data, PageKey()) != "" then Field(data, PageKey()) else DEFAULT_PAGE,
      Field(data, CreatedAtKey())))
  }

  /** What `parse_audit_field_link` makes of a text. */
  function Parsed(value: string): Option<AuditFieldLink>
  {
    var text := Strip(value);
    if '=' !in text then None else Link(Collect(Split(text, ';')))
  }

  /** `parse_audit_field_link` on a text. */
  method Parse(value: string) returns (link: Option<AuditFieldLink>)
    ensures link == Parsed(value)
  {
    hide Strip, Unquote, Find, Split, Link;
    var text := Strip(value);
    if text == "" || '=' !in text { return None; }
    var parts := Split(text, ';');
    var data: map<string, string> := map[];
    for i := 0 to |parts|
      invariant data == Collect(parts[..i])
    {
      assert parts[..i + 1][..i] == parts[..i];
      var part := parts[i];
      if '=' !in part {
        assert Find(part, '=') == |part|;
        continue;
      }
      var at := Find(part, '=');
      assert part[..|part|] == part;
      var key := Strip(part[..at]);
      if key == "" { continue; }
      data := data[key := Unquote(Strip(part[at + 1..]))];
    }
    assert parts[..|parts|] == parts;
    link := Link(data);
  }

  /** What a link means: trimmed, with the key and the label standing in for each other and the usual page. */
  function Meaning(link: AuditFieldLink): Option<AuditFieldLink>
  {
    var key, title := Strip(link.fieldKey), Strip(link.fieldLabel);
    if key == "" && title == "" then None
    else Some(AuditFieldLink(
      Strip(link.auditId), Strip(link.auditKey), Strip(link.machineNumber), Strip(link.toolNumber),
      if key != "" then key else title, if title != "" then title else key,
      if Strip(link.page) != "" then Strip(link.page) else DEFAULT_PAGE,
      Strip(link.createdAt)))
  }

  /* ---- Printing then parsing ---- */

  predicate PlainChar(c: char)
  {
    Unreserved(c as int) || c == '%'
  }

  /** A key or a quoted value: nothing in it is a space, a semicolon or an equals sign. */
  ghost predicate Plain(s: string)
  {
    forall i :: 0 <= i < |s| ==> PlainChar(s[i])
  }

  lemma KeysArePlain()
    ensures forall i :: 0 <= i < |Keys()| ==> Plain(Keys()[i]) && Keys()[i] != ""
  {
    assert Plain(AuditIdKey()) && Plain(AuditKeyKey()) && Plain(MachineKey()) && Plain(ToolKey());
    assert Plain(FieldKeyKey()) && Plain(FieldLabelKey()) && Plain(PageKey()) && Plain(CreatedAtKey());
    hide Plain;
  }

  lemma KeysAreDistinct()
    ensures forall i, j :: 0 <= i < j < |Keys()| ==> Keys()[i] != Keys()[j]
  {
    assert |AuditIdKey()| == 8 && |AuditKeyKey()| == 9 && |MachineKey()| == 7 && |ToolKey()| == 4;
    assert |FieldKeyKey()| == 9 && |FieldLabelKey()| == 11 && |PageKey()| == 4 && |CreatedAtKey()| == 10;
    assert AuditKeyKey()[0] != FieldKeyKey()[0] && ToolKey()[0] != PageKey()[0];
  }

  lemma NoSpaces(c: char)
    ensures PlainChar(c) || c == '=' || c == ';' ==> !IsSpace(c)
    ensures !PlainChar(';') && !PlainChar('=')
  {
  }

  lemma PlainIsStripped(s: string)
    requires Plain(s)
    ensures Strip(s) == s
  {
    StripFixed(s);
  }

  lemma QuoteIsPlain(value: string)
    ensures Plain(Quote(value))
  {
    QuotedChars(Encode(value));
  }

  /** A printed pair adds its key with its value. */
  lemma PairAdds(data: map<string, string>, key: string, value: string)
    requires Plain(key) && key != ""
    ensures WithPart(data, Pair(key, value)) == data[key := value]
  {
    var part := Pair(key, value);
    QuoteIsPlain(value);
    assert part[..|key|] == key && part[|key|] == '=' && part[|key| + 1..] == Quote(value);
    FindAt(part, '=', |key|);
    PlainIsStripped(key);
    PlainIsStripped(Quote(value));
    UnquoteQuote(value);
  }

  lemma {:induction false} PairsArePlain(keys: seq<string>, values: seq<string>)
    requires |keys| == |values| && forall i :: 0 <= i < |keys| ==> Plain(keys[i])
    ensures forall part :: part in Pairs(keys, values) ==>
              '=' in part && forall i :: 0 <= i < |part| ==> PlainChar(part[i]) || part[i] == '='
  {
    if keys != [] {
      PairsArePlain(keys[1..], values[1..]);
      QuoteIsPlain(values[0]);
      var part := Pair(keys[0], values[0]);
      assert part[|keys[0]|] == '=';
    }
  }

  /** The first keys that have a value, each with its value. */
  function Held(keys: seq<string>, values: seq<string>, n: nat): map<string, string>
    requires n <= |keys| == |values|
  {
    if n == 0 then map[]
    else
      var held := Held(keys, values, n - 1);
      if values[n - 1] == "" then held else held[keys[n - 1] := values[n - 1]]
  }

  lemma {:induction false} HeldValues(keys: seq<string>, values: seq<string>, n: nat)
    requires n <= |keys| == |values|
    requires forall i, j :: 0 <= i < j < |keys| ==> keys[i] != keys[j]
    ensures forall i :: n <= i < |keys| ==> keys[i] !in Held(keys, values, n)
    ensures forall i :: 0 <= i < n ==>
              var held := Held(keys, values, n);
              if values[i] == "" then keys[i] !in held else keys[i] in held && held[keys[i]] == values[i]
  {
    if n > 0 { HeldValues(keys, values, n - 1); }
  }

  /** Collecting printed pairs gives back every key that has a value. */
  lemma {:induction false} CollectPairs(keys: seq<string>, values: seq<string>, n: nat)
    requires n <= |keys| == |values|
    requires forall i :: 0 <= i < |keys| ==> Plain(keys[i]) && keys[i] != ""
    ensures Collect(Pairs(keys[..n], values[..n])) == Held(keys, values, n)
  {
    hide Plain, Pair, WithPart;
    if n > 0 {
      CollectPairs(keys, values, n - 1);
      PairsSnoc(keys[..n], values[..n]);
      assert keys[..n][..n - 1] == keys[..n - 1] && values[..n][..n - 1] == values[..n - 1];
      var before := Pairs(keys[..n - 1], values[..n - 1]);
      if values[n - 1] != "" {
        var pair := Pair(keys[n - 1], values[n - 1]);
        assert (before + [pair])[..|before|] == before;
        PairAdds(Collect(before), keys[n - 1], values[n - 1]);
      } else {
        assert before + [] == before;
      }
    }
  }

  lemma {:induction false} PairsSnoc(keys: seq<string>, values: seq<string>)
    requires |keys| == |values| > 0
    ensures var n := |keys| - 1;
      Pairs(keys, values) ==
      Pairs(keys[..n], values[..n]) + (if values[n] == "" then [] else [Pair(keys[n], values[n])])
  {
    hide Pair;
    var n := |keys| - 1;
    if n > 0 {
      PairsSnoc(keys[1..], values[1..]);
      assert keys[1..][..n - 1] == keys[..n][1..] && values[1..][..n - 1] == values[..n][1..];
    }
  }

  /** The printed text, split, is the pairs again. */
  lemma SerializedParts(link: AuditFieldLink)
    ensures var pairs := Pairs(Keys(), Values(link));
            var text := Serialize(link);
      && Strip(text) == text
      && (pairs == [] ==> text == "")
      && (pairs != [] ==> '=' in text && Split(text, ';') == pairs)
  {
    hide Plain, Pair, Pairs, Keys, Values, Strip, IsSpace, Unreserved, Join, Split;
    var pairs := Pairs(Keys(), Values(link));
    var text := Serialize(link);
    KeysArePlain();
    PairsArePlain(Keys(), Values(link));
    forall i | 0 <= i < |text| ensures !IsSpace(text[i]) {
      JoinedChars(pairs, ';', text[i]);
      NoSpaces(text[i]);
    }
    StripFixed(text);
    JoinStarts(pairs, ';');
    if pairs != [] {
      forall i | 0 <= i < |pairs| ensures ';' !in pairs[i] {
        assert pairs[i] in pairs;
        NoSpaces(';');
      }
      SplitJoin(pairs, ';');
      assert pairs[0] in pairs;
      forall k | 0 <= k < |pairs[0]| ensures pairs[0][k] in text { assert text[k] == pairs[0][k]; }
      assert '=' in pairs[0];
    }
  }

  lemma CollectedFields(link: AuditFieldLink)
    ensures var data := Collect(Pairs(Keys(), Values(link)));
            forall i :: 0 <= i < 8 ==> Field(data, Keys()[i]) == Strip(Values(link)[i])
  {
    hide Plain, Pair, Pairs, Collect, Keys, Values, Strip;
    var keys, values := Keys(), Values(link);
    KeysArePlain();
    KeysAreDistinct();
    CollectPairs(keys, values, 8);
    HeldValues(keys, values, 8);
    assert keys[..8] == keys && values[..8] == values;
    StripEmpty();
    PageIsStripped();
  }

  /** Parsing what a link prints gives its meaning, whatever text its fields hold. */
  lemma ParseSerialize(link: AuditFieldLink)
    ensures Parsed(Serialize(link)) == Meaning(link)
  {
    hide Pairs, Strip, Serialize, Split, Collect, Field, AuditIdKey, AuditKeyKey, MachineKey, ToolKey, FieldKeyKey,
         FieldLabelKey, PageKey, CreatedAtKey;
    SerializedParts(link);
    CollectedFields(link);
    var values := Values(link);
    var data := Collect(Pairs(Keys(), values));
    assert Field(data, Keys()[0]) == Strip(values[0]) && Field(data, Keys()[1]) == Strip(values[1]);
    assert Field(data, Keys()[2]) == Strip(values[2]) && Field(data, Keys()[3]) == Strip(values[3]);
    assert Field(data, Keys()[4]) == Strip(values[4]) && Field(data, Keys()[5]) == Strip(values[5]);
    assert Field(data, Keys()[6]) == Strip(values[6]) && Field(data, Keys()[7]) == Strip(values[7]);
    assert Link(data) == Meaning(link);
    if Pairs(Keys(), values) == [] { NothingCollected(link); }
  }

  /** A link that prints nothing has nothing to say. */
  lemma NothingCollected(link: AuditFieldLink)
    requires Pairs(Keys(), Values(link)) == []
    ensures Meaning(link).None? && '=' !in Strip("")
  {
    hide Pairs, Strip, Keys;
    CollectedFields(link);
    var values := Values(link);
    assert Collect([]) == map[];
    assert Strip(values[4]) == "" && Strip(values[5]) == "";
    StripEmpty();
    PageIsStripped();
  }

  predicate Trimmed(link: AuditFieldLink)
  {
    forall i :: 0 <= i < |Values(link)| ==> Strip(Values(link)[i]) == Values(link)[i]
  }

  /** Printing then parsing returns the link itself exactly when its fields are trimmed and its key, its label
      and its page are non-empty. In any case it is a normalisation: a second round changes nothing. */
  lemma RoundTrips(link: AuditFieldLink)
    ensures Parsed(Serialize(link)) == Some(link) <==>
            Trimmed(link) && link.fieldKey != "" && link.fieldLabel != "" && link.page != ""
    ensures Parsed(Serialize(link)).None? <==> Strip(link.fieldKey) == "" && Strip(link.fieldLabel) == ""
    ensures var first := Parsed(Serialize(link));
            first.Some? ==> Parsed(Serialize(first.value)) == first
  {
    hide Strip, Serialize, Parsed, Trimmed;
    ParseSerialize(link);
    TrimmedFields(link);
    StripEmpty();
    PageIsStripped();
    var first := Meaning(link);
    if first.Some? {
      ParseSerialize(first.value);
      StripTwice(link.auditId);
      StripTwice(link.auditKey);
      StripTwice(link.machineNumber);
      StripTwice(link.toolNumber);
      StripTwice(link.fieldKey);
      StripTwice(link.fieldLabel);
      StripTwice(link.page);
      StripTwice(link.createdAt);
    }
  }

  lemma PageIsStripped()
    ensures Strip(DEFAULT_PAGE) == DEFAULT_PAGE
  {
    hide Strip;
    StripFixed(DEFAULT_PAGE);
  }

  lemma TrimmedFields(link: AuditFieldLink)
    ensures Trimmed(link) <==>
      && Strip(link.auditId) == link.auditId && Strip(link.auditKey) == link.auditKey
      && Strip(link.machineNumber) == link.machineNumber && Strip(link.toolNumber) == link.toolNumber
      && Strip(link.fieldKey) == link.fieldKey && Strip(link.fieldLabel) == link.fieldLabel
      && Strip(link.page) == link.page && Strip(link.createdAt) == link.createdAt
  {
    hide Strip;
    var values := Values(link);
    assert values[0] == link.auditId && values[1] == link.auditKey && values[2] == link.machineNumber;
    assert values[3] == link.toolNumber && values[4] == link.fieldKey && values[5] == link.fieldLabel;
    assert values[6] == link.page && values[7] == link.createdAt;
  }
}
