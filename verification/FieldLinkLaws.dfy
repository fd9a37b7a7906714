/** The printed form of a field link, and what is read from any text (core/audit_field_links.py). */
module FieldLinkLaws {
  import opened Wrappers
  import opened Text
  import opened Percent
  import opened FieldLinks

  /* ---- The printed form ---- */

  ghost function Piece(key: string, value: string): seq<string>
  {
    if value == "" then [] else [key + "=" + Quote(value)]
  }

  /** The pieces of a printed link: each field that has a value, under its name, in this order. */
  ghost function Printed(link: AuditFieldLink): seq<string>
  {
    Piece("audit_id", link.auditId) + Piece("audit_key", link.auditKey) + Piece("machine", link.machineNumber) +
    Piece("tool", link.toolNumber) + Piece("field_key", link.fieldKey) + Piece("field_label", link.fieldLabel) +
    Piece("page", link.page) + Piece("created_at", link.createdAt)
  }

  /** The first pair, and the pairs behind it. */
  lemma NextPair(keys: seq<string>, values: seq<string>)
    requires |keys| == |values| > 0
    ensures Pairs(keys, values) == Piece(keys[0], values[0]) + Pairs(keys[1..], values[1..])
  {
    hide Quote;
  }

  lemma TwoPairs(keys: seq<string>, values: seq<string>)
    requires |keys| == |values| >= 2
    ensures Pairs(keys, values) ==
      (Piece(keys[0], values[0]) + Piece(keys[1], values[1])) + Pairs(keys[2..], values[2..])
  {
    hide Quote, Piece, Pairs;
    NextPair(keys, values);
    NextPair(keys[1..], values[1..]);
    assert keys[1..][1..] == keys[2..] && values[1..][1..] == values[2..];
  }

  lemma FourPairs(keys: seq<string>, values: seq<string>)
    requires |keys| == |values| >= 4
    ensures Pairs(keys, values) ==
      (Piece(keys[0], values[0]) + Piece(keys[1], values[1])) + (Piece(keys[2], values[2]) + Piece(keys[3], values[3]))
      + Pairs(keys[4..], values[4..])
  {
    hide Quote, Piece, Pairs;
    TwoPairs(keys, values);
    TwoPairs(keys[2..], values[2..]);
    assert keys[2..][2..] == keys[4..] && values[2..][2..] == values[4..];
  }

  /** A link is printed as its pieces with semicolons between them. */
  lemma PrintedTold(link: AuditFieldLink)
    ensures Serialize(link) == Join(Printed(link), ';')
  {
    hide Quote, Piece, Join, Pairs;
    var keys, values := Keys(), Values(link);
    FourPairs(keys, values);
    FourPairs(keys[4..], values[4..]);
    assert Pairs(keys[4..][4..], values[4..][4..]) == [] by { NoPairs(); }
    assert Pairs(keys, values) == Printed(link);
  }

  lemma NoPairs()
    ensures Pairs([], []) == []
  {
  }

  /** A printed link means its trimmed fields; the page is the audit's when none is given. */
  lemma PageTold(link: AuditFieldLink)
    requires Strip(link.fieldKey) != "" || Strip(link.fieldLabel) != ""
    ensures var read := Parsed(Serialize(link));
      read.Some? && read.value.page == if Strip(link.page) != "" then Strip(link.page) else "EOAT Audit"
  {
    hide Serialize, Parsed, Strip;
    ParseSerialize(link);
  }

  /* ---- Any text ---- */

  /** The part gives this key: that is what stands in front of its first equals sign, without spaces around it. */
  ghost predicate Gives(part: string, key: string)
  {
    Find(part, '=') < |part| && Strip(part[..Find(part, '=')]) == key
  }

  /** What it gives for the key: the unquoted text behind the equals sign. */
  ghost function Given(part: string): string
    requires Find(part, '=') < |part|
  {
    Unquote(Strip(part[Find(part, '=') + 1..]))
  }

  lemma PartTold(data: map<string, string>, part: string, key: string)
    requires key != ""
    ensures Gives(part, key) ==> key in WithPart(data, part) && WithPart(data, part)[key] == Given(part)
    ensures !Gives(part, key) ==>
      (key in WithPart(data, part) <==> key in data) && (key in data ==> WithPart(data, part)[key] == data[key])
  {
    hide Strip, Unquote, Find;
  }

  /** The part gives the key, and no later one does. */
  ghost predicate LastGives(parts: seq<string>, i: nat, key: string)
    requires i < |parts|
  {
    Gives(parts[i], key) && forall j :: i < j < |parts| ==> !Gives(parts[j], key)
  }

  /** A key is read exactly when some part gives it, and the last such part counts. */
  lemma {:induction false} LastPartCounts(parts: seq<string>, key: string)
    requires key != ""
    ensures key in Collect(parts) <==> exists i :: 0 <= i < |parts| && Gives(parts[i], key)
    ensures forall i :: 0 <= i < |parts| && LastGives(parts, i, key) ==>
      key in Collect(parts) && Collect(parts)[key] == Given(parts[i])
  {
    hide Given, WithPart, LastGives, Strip;
    if parts != [] {
      var last, earlier := parts[|parts| - 1], parts[..|parts| - 1];
      LastPartCounts(earlier, key);
      PartTold(Collect(earlier), last, key);
      forall i | 0 <= i < |parts| && LastGives(parts, i, key)
        ensures key in Collect(parts) && Gives(parts[i], key) && Collect(parts)[key] == Given(parts[i])
      {
        if i < |earlier| { EarlierGives(parts, i, key); } else { GivesIt(parts, i, key); }
      }
      SomeGives(parts, key);
    }
  }

  lemma GivesIt(parts: seq<string>, i: nat, key: string)
    requires i < |parts| && LastGives(parts, i, key)
    ensures Gives(parts[i], key)
  {
    hide Gives;
  }

  lemma SomeGives(parts: seq<string>, key: string)
    requires parts != []
    ensures var earlier := parts[..|parts| - 1];
      (exists i :: 0 <= i < |parts| && Gives(parts[i], key)) <==>
      Gives(parts[|parts| - 1], key) || exists i :: 0 <= i < |earlier| && Gives(earlier[i], key)
  {
    hide Gives;
    var earlier := parts[..|parts| - 1];
    if i :| 0 <= i < |parts| && Gives(parts[i], key) && i < |parts| - 1 {
      assert earlier[i] == parts[i];
    }
  }

  lemma EarlierGives(parts: seq<string>, i: nat, key: string)
    requires i < |parts| - 1 && LastGives(parts, i, key)
    ensures LastGives(parts[..|parts| - 1], i, key) && !Gives(parts[|parts| - 1], key) && Gives(parts[i], key)
  {
    hide Gives;
  }
}
