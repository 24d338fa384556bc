/**
 Two places where the source's cleanup does not produce what its callers
 and tests expect, each shown on a concrete response next to the corrected
 pass (`Cleanup`) that the rest of the model uses.
 */
module CleanupFindings {
  import opened Wrappers
  import opened OrderedMaps
  import opened DecimalText
  import opened Values
  import opened Coercion
  import opened XmlCleanup
  import opened CleanupProperties

  /** `<clients page="1" per_page="100" pages="N" total="T"><client>…</client></clients>` */
  function PagedClients(pages: nat, total: nat): OMap<Raw> {
    [
      ("page", Text("1")),
      ("per_page", Text("100")),
      ("pages", Text(NatDigits(pages))),
      ("total", Text(NatDigits(total))),
      ("client", Node([("client_id", Text("7"))]))
    ]
  }

  function PagedResponse(pages: nat, total: nat): Raw {
    Node([("clients", Node(PagedClients(pages, total)))])
  }

  lemma PagedClientsPlural(pages: nat, total: nat)
    ensures !Deprecated(PagedClients(pages, total)) && IsPlural(false, "clients", PagedClients(pages, total))
    ensures HasPaging(PagedClients(pages, total))
    ensures Get(PagedClients(pages, total), "pages") == Some(Text(NatDigits(pages)))
  {
    PagedClientsReads(pages, total);
    PagedClientsKeys(pages, total);
  }

  lemma PagedClientsDistinct(pages: nat, total: nat)
    ensures Keys(PagedClients(pages, total)) == ["page", "per_page", "pages", "total", "client"]
    ensures Distinct(PagedClients(pages, total))
  {
  }

  lemma PagedClientsReads(pages: nat, total: nat)
    ensures Get(PagedClients(pages, total), "deprecated") == None
    ensures Get(PagedClients(pages, total), "pages") == Some(Text(NatDigits(pages)))
    ensures IndexOfKey(PagedClients(pages, total), "client") == 4
  {
    var cs := PagedClients(pages, total);
    PagedClientsDistinct(pages, total);
    GetAt(cs, 2);
    assert cs[4].0 == "client";
  }

  lemma PagedClientsKeys(pages: nat, total: nat)
    ensures HasPaging(PagedClients(pages, total))
    ensures Singular("clients") == "client"
  {
    assert Keys(PagedClients(pages, total)) == ["page", "per_page", "pages", "total", "client"];
    ClientsSingular();
  }

  /** The lifted page count is the sub-map's `pages` value as the mode lifts it. */
  lemma PagesLifted(m: Mode, pages: nat, total: nat)
    ensures Prop(CleanupIn(m, PagedResponse(pages, total)), "pages") == HoistedValue(m, Text(NatDigits(pages)))
  {
    var cs := PagedClients(pages, total);
    PagedClientsPlural(pages, total);
    ClientsNotPaging();
    LiftedFields(m, "clients", cs);
    var fs := CleanupIn(m, Node([("clients", Node(cs))])).fields;
    assert PagingKeys[2] == "pages";
    assert Get(fs, PagingKeys[2]) == Some(HoistedValue(m, Get(cs, PagingKeys[2]).GetOr(Empty)));
  }

  lemma ClientsNotPaging()
    ensures "clients" !in PagingKeys
  {
  }

  /**
   As written, a lifted pagination field keeps the parser's raw text: the
   page count of a listing is a string, which the listing loop then extends
   by string concatenation. The corrected pass lifts the number.
   */
  lemma LiftedPagesStayText(pages: nat, total: nat)
    ensures Prop(CleanupAsWritten(PagedResponse(pages, total)), "pages") == Str(NatDigits(pages))
    ensures Prop(Cleanup(PagedResponse(pages, total)), "pages") == Int(pages)
  {
    PagesAsWritten(pages, total);
    PagesCorrected(pages, total);
  }

  lemma PagesAsWritten(pages: nat, total: nat)
    ensures Prop(CleanupAsWritten(PagedResponse(pages, total)), "pages") == Str(NatDigits(pages))
  {
    PagesLifted(AsWritten, pages, total);
  }

  lemma PagesCorrected(pages: nat, total: nat)
    ensures Prop(Cleanup(PagedResponse(pages, total)), "pages") == Int(pages)
  {
    PagesLifted(Intended, pages, total);
    ParseNatDigits(pages);
    assert Intended.coerceHoisted;
    assert HoistedValue(Intended, Text(NatDigits(pages))) == Int(pages);
    assert Cleanup(PagedResponse(pages, total)) == CleanupIn(Intended, PagedResponse(pages, total));
  }

  /** `<ids><id>NM</id></ids>`: a collection holding one two-digit text item. */
  function LoneId(tens: nat, units: nat): Raw
    requires tens < 10 && units < 10
  {
    Node([("ids", Node([("id", Text([DigitChar(tens), DigitChar(units)]))]))])
  }

  lemma IdsPlural(t: string)
    ensures !Deprecated([("id", Text(t))]) && IsPlural(false, "ids", [("id", Text(t))])
  {
    assert Keys(IrregularPlurals) == ["categories", "staff_members", "taxes", "time_entries", "default_terms", "currencies"];
    SingularRegular("ids");
    assert "ids"[..2] == "id";
  }

  /** The `ids` key holds the list unwrapped from its lone `id` text. */
  lemma IdsUnwrapped(m: Mode, tens: nat, units: nat)
    requires tens < 10 && units < 10
    ensures Prop(CleanupIn(m, LoneId(tens, units)), "ids") == Unwrap(m, Text([DigitChar(tens), DigitChar(units)]))
  {
    var t := [DigitChar(tens), DigitChar(units)];
    IdsPlural(t);
    var cs := [("ids", Node([("id", Text(t))]))];
    GetCleanupEntry(m, cs, 0);
    assert IndexOfKey([("id", Text(t))], "id") == 0;
  }

  /** A single digit coerces to its value. */
  lemma DigitValue(d: nat)
    requires d < 10
    ensures ParseValue([DigitChar(d)]) == Int(d)
  {
    ParseNatDigits(d);
  }

  /** Walked character by character, a two-digit text is the map {0: tens, 1: units}. */
  lemma TwoDigitsSplit(tens: nat, units: nat)
    requires tens < 10 && 0 < units < 10
    ensures CastArray(CleanupIn(AsWritten, Text([DigitChar(tens), DigitChar(units)]))) == List([Int(tens), Int(units)])
  {
    var t := [DigitChar(tens), DigitChar(units)];
    assert NatDigits(0) == "0" && NatDigits(1) == "1";
    DigitValue(tens);
    DigitValue(units);
    assert [t[0]] == [DigitChar(tens)] && [t[1]] == [DigitChar(units)];
    var exploded := CleanupIn(AsWritten, Text(t)).fields;
    assert exploded == [("0", Int(tens)), ("1", Int(units))];
    assert Get(exploded, "1") == Some(Int(units));
  }

  /** Two digits, the first non-zero, read as the number they spell. */
  lemma TwoDigitsValue(tens: nat, units: nat)
    requires 0 < tens < 10 && units < 10
    ensures ParseValue([DigitChar(tens), DigitChar(units)]) == Int(10 * tens + units)
  {
    var n := 10 * tens + units;
    assert n / 10 == tens && n % 10 == units;
    assert NatDigits(tens) == [DigitChar(tens)];
    assert NatDigits(n) == [DigitChar(tens), DigitChar(units)];
    ParseNatDigits(n);
  }

  /**
   As written, a lone text item is walked character by character, so a
   single id 42 comes back as the list [4, 2]. The corrected pass gives [42].
   */
  lemma LoneTextItemSplits(tens: nat, units: nat)
    requires 0 < tens < 10 && 0 < units < 10
    ensures Prop(CleanupAsWritten(LoneId(tens, units)), "ids") == List([Int(tens), Int(units)])
    ensures Prop(Cleanup(LoneId(tens, units)), "ids") == List([Int(10 * tens + units)])
  {
    IdsUnwrapped(AsWritten, tens, units);
    IdsUnwrapped(Intended, tens, units);
    TwoDigitsSplit(tens, units);
    TwoDigitsValue(tens, units);
  }

  /** `<note>a</note><note>b</note>` directly under the response, outside any collection. */
  function TwoNotes(a: string, b: string): Raw {
    Node([("note", Repeated([Text(a), Text(b)]))])
  }

  /** A lower-case letter coerces to itself as text. */
  lemma LetterText(c: char)
    requires 'a' <= c <= 'z'
    ensures ParseValue([c]) == Str([c])
  {
    NotBlank([c]);
    assert IntegerPart([c]) == [c];
    assert !IsBoolLiteral([c]);
  }

  /** The repeated `note` entry holds each note's item value, in order. */
  lemma NotesEntry(m: Mode, a: string, b: string)
    ensures Prop(CleanupIn(m, TwoNotes(a, b)), "note") == List([ItemValue(m, Text(a)), ItemValue(m, Text(b))])
  {
    var cs := [("note", Repeated([Text(a), Text(b)]))];
    assert "note" != "page" && "note" != "per_page" && "note" != "pages" && "note" != "total";
    GetCleanupEntry(m, cs, 0);
  }

  /**
   As written, `_.map(cleanup, value)` walks every repeated text element
   character by character, inside a collection or not, so two sibling notes
   `x` and `y` come back as [{0: "x"}, {0: "y"}]. The corrected pass gives
   ["x", "y"].
   */
  lemma RepeatedTextSplits()
    ensures Prop(CleanupAsWritten(TwoNotes("x", "y")), "note") == List([Obj([("0", Str("x"))]), Obj([("0", Str("y"))])])
    ensures Prop(Cleanup(TwoNotes("x", "y")), "note") == List([Str("x"), Str("y")])
  {
    NotesEntry(AsWritten, "x", "y");
    NotesEntry(Intended, "x", "y");
    assert NatDigits(0) == "0";
    LetterText('x');
    LetterText('y');
    assert "x" == ['x'] && "y" == ['y'];
    assert CleanupIn(AsWritten, Text("x")) == Obj([("0", Str("x"))]);
    assert CleanupIn(AsWritten, Text("y")) == Obj([("0", Str("y"))]);
  }

  /** Two text items walk into two index-keyed entries holding their coerced values. */
  lemma TwoTextsFold(m: Mode, a: string, b: string)
    ensures Fold(m, Repeated([Text(a), Text(b)]), 2) == [("0", ParseValue(a)), ("1", ParseValue(b))]
  {
    var r := Repeated([Text(a), Text(b)]);
    assert EntryName(r, 0) == "0" && EntryName(r, 1) == "1";
    assert EntryOut(m, true, "0", Text(a)) == Some(ParseValue(a));
    assert EntryOut(m, true, "1", Text(b)) == Some(ParseValue(b));
    assert Fold(m, r, 1) == Step(m, r, 0, []) == Put([], "0", ParseValue(a));
    assert Fold(m, r, 2) == Step(m, r, 1, Fold(m, r, 1)) == Put([("0", ParseValue(a))], "1", ParseValue(b));
    PutAbsent([("0", ParseValue(a))], "1", ParseValue(b));
  }

  /** Two text items, the second of which reads as zero. */
  function ZeroSecond(first: nat): Raw {
    Repeated([Text(NatDigits(first)), Text("0")])
  }

  /**
   As written, a collection is turned into a list only when its second item
   is truthy: with a second item 0 the whole map {0: n, 1: 0} becomes the
   single item. The corrected pass gives [n, 0].
   */
  lemma FalsySecondItemWrapsWhole(first: nat)
    ensures Unwrap(AsWritten, ZeroSecond(first)) == List([Obj([("0", Int(first)), ("1", Int(0))])])
    ensures Unwrap(Intended, ZeroSecond(first)) == List([Int(first), Int(0)])
  {
    ZeroSecondAsWritten(first);
    ZeroSecondIntended(first);
  }

  /** Either pass walks the two items into the entries `0: n` and `1: 0`. */
  lemma ZeroSecondFields(m: Mode, first: nat)
    ensures Fold(m, ZeroSecond(first), 2) == [("0", Int(first)), ("1", Int(0))]
  {
    ParseNatDigits(first);
    ParseNatDigits(0);
    assert NatDigits(0) == "0";
    TwoTextsFold(m, NatDigits(first), "0");
  }

  /** The two items cleaned as the source does: the object `{0: n, 1: 0}`, whose `a[1]` is falsy. */
  lemma ZeroSecondAsWritten(first: nat)
    ensures Unwrap(AsWritten, ZeroSecond(first)) == List([Obj([("0", Int(first)), ("1", Int(0))])])
  {
    ZeroSecondFields(AsWritten, first);
    var fs := [("0", Int(first)), ("1", Int(0))];
    assert CleanupIn(AsWritten, ZeroSecond(first)) == Obj(fs);
    assert Get(fs, "1") == Some(Int(0));
    assert !Truthy(Int(0));
  }

  /** The two items cleaned as intended: the list of their values. */
  lemma ZeroSecondIntended(first: nat)
    ensures Unwrap(Intended, ZeroSecond(first)) == List([Int(first), Int(0)])
  {
    ZeroSecondFields(Intended, first);
  }
}
