/** The comma-separated `key=value` label list the controller keeps in its labels
    annotation: how an existing value is read into a map and how a map is written back. */
module Labels {
  import opened Wrappers
  import opened Text
  import opened StringOrder

  /** The text of one label: `key=value`. */
  function Entry(key: string, value: string): (e: string)
    ensures |e| == |key| + 1 + |value| && e[|key|] == '='
  {
    key + "=" + value
  }

  /** One comma-separated piece, read as the controller reads it: white space trimmed, then
      cut at the first `=`; a piece without `=` yields nothing. */
  function ParsePiece(piece: string): (r: Option<(string, string)>)
    ensures r.None? <==> '=' !in TrimSpace(piece)
    ensures r.Some? ==> '=' !in r.value.0 && Entry(r.value.0, r.value.1) == TrimSpace(piece)
  {
    Cut(TrimSpace(piece), '=')
  }

  /** The label map of a list of pieces, read from left to right: a later piece with the
      same key overwrites an earlier one. */
  function ParsePieces(pieces: seq<string>): map<string, string>
  {
    if pieces == [] then map[]
    else
      var m := ParsePieces(pieces[..|pieces| - 1]);
      match ParsePiece(pieces[|pieces| - 1])
      case None => m
      case Some((k, v)) => m[k := v]
  }

  /** The label map an annotation value denotes. */
  function ParsedLabels(s: string): map<string, string>
  {
    ParsePieces(Split(s, ','))
  }

  /** Reads an existing annotation value into a label map, piece by piece
      (pkg/controller/controller.go, the loop over `strings.Split`). */
  method ParseLabels(existing: string) returns (labels: map<string, string>)
    ensures labels == ParsedLabels(existing)
  {
    var pieces := Split(existing, ',');
    labels := map[];
    var i := 0;
    while i < |pieces|
      invariant 0 <= i <= |pieces|
      invariant labels == ParsePieces(pieces[..i])
    {
      assert pieces[..i + 1][..i] == pieces[..i];
      var parts := ParsePiece(pieces[i]);
      if parts.Some? {
        labels := labels[parts.value.0 := parts.value.1];
      }
      i := i + 1;
    }
    assert pieces[..i] == pieces;
  }

  /** A label key that survives being written and read back: no `=` or `,`, and no leading
      white space. */
  predicate WellFormedKey(k: string) {
    '=' !in k && ',' !in k && (|k| > 0 ==> !IsSpace(k[0]))
  }

  /** A label value that survives being written and read back: no `,` and no trailing
      white space. */
  predicate WellFormedValue(v: string) {
    ',' !in v && (|v| > 0 ==> !IsSpace(v[|v| - 1]))
  }

  predicate WellFormed(labels: map<string, string>) {
    forall k :: k in labels ==> WellFormedKey(k) && WellFormedValue(labels[k])
  }

  /** The entries of a label map, as a set of `key=value` strings. */
  ghost function Entries(labels: map<string, string>): set<string> {
    set k | k in labels :: Entry(k, labels[k])
  }

  /** The annotation value written for a label map: its entries in increasing string order,
      joined with `,`. It depends on the map alone, not on the order the entries were
      produced in. */
  ghost function SerializedLabels(labels: map<string, string>): string {
    Join(SortedElements(Entries(labels)), ',')
  }

  /** Writes a label map back as an annotation value: one entry per key, in whatever
      order the map yields its keys, then sorted and joined
      (pkg/controller/controller.go, the `fmt.Sprintf` loop, `sort.Strings` and `strings.Join`). */
  method SerializeLabels(labels: map<string, string>) returns (s: string)
    requires forall k :: k in labels ==> '=' !in k
    ensures s == SerializedLabels(labels)
  {
    var entries := new string[|labels|];
    var n := 0;
    var remaining := labels.Keys;
    ghost var done: seq<string> := [];
    while remaining != {}
      invariant remaining <= labels.Keys
      invariant n == |done| && n + |remaining| == |labels|
      invariant forall i :: 0 <= i < n ==> done[i] in labels && done[i] !in remaining
      invariant forall k :: k in labels && k !in remaining ==> k in done
      invariant NoDuplicates(done)
      invariant forall i :: 0 <= i < n ==> entries[i] == Entry(done[i], labels[done[i]])
    {
      var k :| k in remaining;
      entries[n] := Entry(k, labels[k]);
      done := done + [k];
      remaining := remaining - {k};
      n := n + 1;
    }
    ghost var unsorted := entries[..];
    EntriesOfKeys(labels, done, unsorted);
    SortStrings(entries);
    SortedPermutationIsStrict(entries[..], unsorted);
    SortedElementsUnique(Entries(labels), entries[..]);
    s := Join(entries[..], ',');
  }

  /** `Entry` is injective on keys without `=`. */
  lemma EntryInjective(k1: string, v1: string, k2: string, v2: string)
    requires '=' !in k1 && '=' !in k2
    requires Entry(k1, v1) == Entry(k2, v2)
    ensures k1 == k2 && v1 == v2
  {
    var e := Entry(k1, v1);
    assert forall i :: 0 <= i < |k1| ==> e[i] == k1[i] && e[i] != '=';
    assert forall i :: 0 <= i < |k2| ==> e[i] == k2[i] && e[i] != '=';
    assert e[|k1|] == '=' && Entry(k2, v2)[|k2|] == '=';
    assert |k1| == |k2|;
    assert k1 == e[..|k1|] == k2;
    assert v1 == e[|k1| + 1..] == v2;
  }

  /** The entries written for a duplicate-free list of all keys are duplicate-free and are
      exactly the entries of the map. */
  lemma EntriesOfKeys(labels: map<string, string>, keys: seq<string>, entries: seq<string>)
    requires forall k :: k in labels ==> '=' !in k
    requires forall k :: k in keys <==> k in labels
    requires NoDuplicates(keys) && |entries| == |keys|
    requires forall i :: 0 <= i < |keys| ==> entries[i] == Entry(keys[i], labels[keys[i]])
    ensures NoDuplicates(entries)
    ensures forall x :: x in entries <==> x in Entries(labels)
  {
    forall i, j | 0 <= i < j < |entries|
      ensures entries[i] != entries[j]
    {
      assert keys[i] in labels && keys[j] in labels;
      if entries[i] == entries[j] {
        EntryInjective(keys[i], labels[keys[i]], keys[j], labels[keys[j]]);
      }
    }
    forall x | x in Entries(labels)
      ensures x in entries
    {
      var k :| k in labels && x == Entry(k, labels[k]);
      assert k in keys;
      var i :| 0 <= i < |keys| && keys[i] == k;
      assert entries[i] == x;
    }
  }

  /** A comma-free piece reads as a well-formed key and value. */
  lemma ParsePieceWellFormed(piece: string)
    requires ',' !in piece
    ensures ParsePiece(piece).Some? ==>
              WellFormedKey(ParsePiece(piece).value.0) && WellFormedValue(ParsePiece(piece).value.1)
  {
    var t := TrimSpace(piece);
    if ParsePiece(piece).Some? {
      var (k, v) := ParsePiece(piece).value;
      assert t == k + "=" + v;
      assert ',' !in t;
      assert forall c :: c in k ==> c in t;
      assert forall c :: c in v ==> c in t;
      if |k| > 0 {
        assert k[0] == t[0];
      }
      if |v| > 0 {
        assert v[|v| - 1] == t[|t| - 1];
      }
    }
  }

  /** Every piece of an annotation value reads as a well-formed label, so the parsed map is
      well-formed. */
  lemma {:induction false} ParsePiecesWellFormed(pieces: seq<string>)
    requires forall p :: p in pieces ==> ',' !in p
    ensures WellFormed(ParsePieces(pieces))
  {
    if pieces != [] {
      var init := pieces[..|pieces| - 1];
      var last := pieces[|pieces| - 1];
      assert forall p :: p in init ==> p in pieces;
      ParsePiecesWellFormed(init);
      assert last in pieces;
      ParsePieceWellFormed(last);
    }
  }

  /** Whatever the annotation held, the labels read from it are well-formed. */
  lemma ParsedLabelsWellFormed(s: string)
    ensures WellFormed(ParsedLabels(s))
  {
    ParsePiecesWellFormed(Split(s, ','));
  }

  /** A well-formed entry reads back as its own key and value. */
  lemma ParsePieceEntry(k: string, v: string)
    requires WellFormedKey(k) && WellFormedValue(v)
    ensures ParsePiece(Entry(k, v)) == Some((k, v))
  {
    var e := Entry(k, v);
    assert e[0] == if |k| > 0 then k[0] else '=';
    assert e[|e| - 1] == if |v| > 0 then v[|v| - 1] else '=';
    assert TrimSpace(e) == e;
    assert '=' in e by {
      assert e[|k|] == '=';
    }
    var r := Cut(e, '=');
    EntryInjective(r.value.0, r.value.1, k, v);
  }

  /** Reading one more well-formed entry sets its key. */
  lemma ParsePiecesAppend(init: seq<string>, k: string, v: string)
    requires WellFormedKey(k) && WellFormedValue(v)
    ensures ParsePieces(init + [Entry(k, v)]) == ParsePieces(init)[k := v]
  {
    var pieces := init + [Entry(k, v)];
    assert pieces[..|pieces| - 1] == init;
    ParsePieceEntry(k, v);
  }

  /** Adding the entry of one key to a part of `labels` read from a list keeps it a part of
      `labels` that holds every key whose entry is listed. */
  lemma AddEntry(labels: map<string, string>, m: map<string, string>, init: seq<string>, k: string)
    requires WellFormed(labels) && k in labels
    requires forall j :: j in m ==> j in labels && m[j] == labels[j]
    requires forall j :: j in labels && Entry(j, labels[j]) in init ==> j in m
    ensures forall j :: j in m[k := labels[k]] ==> j in labels && m[k := labels[k]][j] == labels[j]
    ensures forall j :: j in labels && Entry(j, labels[j]) in init + [Entry(k, labels[k])] ==> j in m[k := labels[k]]
  {
    forall j | j in labels && Entry(j, labels[j]) in init + [Entry(k, labels[k])]
      ensures j in m[k := labels[k]]
    {
      if Entry(j, labels[j]) == Entry(k, labels[k]) {
        EntryInjective(j, labels[j], k, labels[k]);
      } else {
        assert Entry(j, labels[j]) in init;
      }
    }
  }

  /** Reading a list of well-formed entries of `labels` gives back the part of `labels`
      whose entries are in the list. */
  lemma {:induction false} ParsePiecesOfEntries(labels: map<string, string>, pieces: seq<string>)
    requires WellFormed(labels)
    requires forall p :: p in pieces ==> p in Entries(labels)
    ensures forall k :: k in ParsePieces(pieces) ==> k in labels && ParsePieces(pieces)[k] == labels[k]
    ensures forall k :: k in labels && Entry(k, labels[k]) in pieces ==> k in ParsePieces(pieces)
  {
    if pieces != [] {
      var init := pieces[..|pieces| - 1];
      var last := pieces[|pieces| - 1];
      assert pieces == init + [last];
      assert forall p :: p in init ==> p in pieces;
      ParsePiecesOfEntries(labels, init);
      assert last in Entries(labels);
      var k :| k in labels && last == Entry(k, labels[k]);
      ParsePiecesAppend(init, k, labels[k]);
      AddEntry(labels, ParsePieces(init), init, k);
    }
  }

  /** The round trip: reading back the value written for a well-formed label map gives the
      same map. */
  lemma RoundTrip(labels: map<string, string>)
    requires WellFormed(labels)
    ensures ParsedLabels(SerializedLabels(labels)) == labels
  {
    var list := SortedElements(Entries(labels));
    if labels == map[] {
      assert Entries(labels) == {};
      assert Split("", ',') == [""];
    } else {
      var k0 :| k0 in labels;
      assert Entry(k0, labels[k0]) in list;
      EntriesCommaFree(labels);
      SplitJoin(list, ',');
      SortedEntriesParseBack(labels);
    }
  }

  /** The entries of a well-formed map contain no comma. */
  lemma EntriesCommaFree(labels: map<string, string>)
    requires WellFormed(labels)
    ensures forall p :: p in SortedElements(Entries(labels)) ==> ',' !in p
  {
    forall p | p in Entries(labels)
      ensures ',' !in p
    {
      var k :| k in labels && p == Entry(k, labels[k]);
    }
  }

  /** Reading the sorted entries of a well-formed map gives the map. */
  lemma SortedEntriesParseBack(labels: map<string, string>)
    requires WellFormed(labels)
    ensures ParsePieces(SortedElements(Entries(labels))) == labels
  {
    var list := SortedElements(Entries(labels));
    ParsePiecesOfEntries(labels, list);
    EntriesListed(labels, list);
    SameEntries(labels, ParsePieces(list), list);
  }

  /** Every entry of a map is in any list of exactly its entries. */
  lemma EntriesListed(labels: map<string, string>, list: seq<string>)
    requires forall p :: p in list <==> p in Entries(labels)
    ensures forall k :: k in labels ==> Entry(k, labels[k]) in list
  {
    forall k | k in labels
      ensures Entry(k, labels[k]) in list
    {
      assert Entry(k, labels[k]) in Entries(labels);
    }
  }

  /** A part of `labels` that holds every key whose entry is listed, read from a list of all
      of its entries, is all of `labels`. */
  lemma SameEntries(labels: map<string, string>, m: map<string, string>, list: seq<string>)
    requires forall k :: k in m ==> k in labels && m[k] == labels[k]
    requires forall k :: k in labels && Entry(k, labels[k]) in list ==> k in m
    requires forall k :: k in labels ==> Entry(k, labels[k]) in list
    ensures m == labels
  {
    assert m.Keys == labels.Keys;
  }

  /** The key a piece defines, if it defines one. */
  function PieceKey(piece: string): Option<string> {
    match ParsePiece(piece)
    case None => None
    case Some((k, _)) => Some(k)
  }

  /** A key is in the parsed map only when some piece defines it. */
  lemma {:induction false} ParsedKeyDefined(pieces: seq<string>, k: string)
    requires k in ParsePieces(pieces)
    ensures exists i :: 0 <= i < |pieces| && PieceKey(pieces[i]) == Some(k)
  {
    var init := pieces[..|pieces| - 1];
    if PieceKey(pieces[|pieces| - 1]) != Some(k) {
      assert k in ParsePieces(init);
      ParsedKeyDefined(init, k);
      var i :| 0 <= i < |init| && PieceKey(init[i]) == Some(k);
      assert pieces[i] == init[i];
    }
  }

  /** The value of a key is the value in the last piece that defines it. */
  lemma {:induction false} LastPieceWins(pieces: seq<string>, i: nat, k: string, v: string)
    requires i < |pieces| && ParsePiece(pieces[i]) == Some((k, v))
    requires forall j :: i < j < |pieces| ==> PieceKey(pieces[j]) != Some(k)
    ensures k in ParsePieces(pieces) && ParsePieces(pieces)[k] == v
  {
    var init := pieces[..|pieces| - 1];
    if i < |pieces| - 1 {
      assert init[i] == pieces[i];
      forall j | i < j < |init| ensures PieceKey(init[j]) != Some(k) {
        assert init[j] == pieces[j];
      }
      LastPieceWins(init, i, k, v);
    }
  }

  /** The pieces of a written annotation value are its sorted entries. */
  lemma SerializedPieces(labels: map<string, string>)
    requires WellFormed(labels) && labels != map[]
    ensures Split(SerializedLabels(labels), ',') == SortedElements(Entries(labels))
  {
    var list := SortedElements(Entries(labels));
    var k :| k in labels;
    assert Entry(k, labels[k]) in Entries(labels);
    forall p | p in list
      ensures ',' !in p
    {
      var j :| j in labels && p == Entry(j, labels[j]);
    }
    SplitJoin(list, ',');
  }

  /** The written entries of a well-formed map define pairwise different keys. */
  lemma SortedEntriesKeysDistinct(labels: map<string, string>)
    requires WellFormed(labels)
    ensures var list := SortedElements(Entries(labels));
            forall i, j :: 0 <= i < j < |list| ==> PieceKey(list[i]) != PieceKey(list[j])
  {
    var list := SortedElements(Entries(labels));
    forall i, j | 0 <= i < j < |list|
      ensures PieceKey(list[i]) != PieceKey(list[j])
    {
      assert list[i] in Entries(labels) && list[j] in Entries(labels);
      var ki :| ki in labels && list[i] == Entry(ki, labels[ki]);
      var kj :| kj in labels && list[j] == Entry(kj, labels[kj]);
      ParsePieceEntry(ki, labels[ki]);
      ParsePieceEntry(kj, labels[kj]);
      LessIrreflexive(list[i]);
    }
  }

  /** A map with one label is written as that label's entry alone. */
  lemma SingleLabel(k: string, v: string)
    ensures SerializedLabels(map[k := v]) == Entry(k, v)
  {
    var m := map[k := v];
    assert Entry(k, m[k]) in Entries(m);
    assert forall e :: e in Entries(m) ==> e == Entry(k, v);
    assert Entries(m) == {Entry(k, v)};
    SortedElementsUnique(Entries(m), [Entry(k, v)]);
  }

  /** The written list of a well-formed map holds each label's entry as one piece, and no
      two pieces define the same key. */
  lemma SerializedPiecesOnce(labels: map<string, string>, k: string)
    requires WellFormed(labels) && k in labels
    ensures var pieces := Split(SerializedLabels(labels), ',');
            && (exists i :: 0 <= i < |pieces| && pieces[i] == Entry(k, labels[k]))
            && (forall i, j :: 0 <= i < j < |pieces| ==> PieceKey(pieces[i]) != PieceKey(pieces[j]))
  {
    SerializedPieces(labels);
    assert Entry(k, labels[k]) in Entries(labels);
    SortedEntriesKeysDistinct(labels);
  }
}
