/** The hand-written parser for the "Link" header, a restricted subset of section 3 of RFC 8288,
    and the printer it inverts. */
module LinkHeader {
  import opened Collections
  import opened Strings
  import opened Wrappers

  datatype Entry = Entry(url: string, rel: string)

  // ---------- the parser ----------

  /** The part of a token before the first '=', and what follows it. */
  function KeyOf(token: string): string {
    token[..IndexOf(token, '=')]
  }

  function ValueOf(token: string): string {
    var i := IndexOf(token, '=');
    if i == |token| then "" else Trim(token[i + 1..], {'"'})
  }

  function ReadToken(e: Entry, t: string): Entry {
    var token := TrimSpace(t);
    if token == "" then e
    else
      var bracketed := token[0] == '<' && token[|token| - 1] == '>';
      var e' := if bracketed then e.(url := TrimSpace(Trim(token, {'<', '>'}))) else e;
      if ToLower(KeyOf(token)) == "rel" then e'.(rel := ValueOf(token)) else e'
  }

  function ReadTokens(e: Entry, tokens: seq<string>): Entry
    decreases tokens
  {
    if tokens == [] then e else ReadTokens(ReadToken(e, tokens[0]), tokens[1..])
  }

  function ParseEntry(s: string): Entry {
    ReadTokens(Entry("", ""), Split(TrimSpace(s), ';'))
  }

  function ParseEntries(parts: seq<string>): seq<Entry> {
    if parts == [] then [] else [ParseEntry(parts[0])] + ParseEntries(parts[1..])
  }

  function Parse(h: string): seq<Entry> {
    if h == "" then [] else ParseEntries(Split(h, ','))
  }

  // ---------- what the parser reads, whatever the text ----------

  /** A token in angle brackets. */
  predicate IsUrl(t: string) {
    t != "" && t[0] == '<' && t[|t| - 1] == '>'
  }

  /** A token whose key is "rel", in any letter case, with or without a value. */
  predicate IsRel(t: string) {
    && |t| >= 3 && t[0] in {'r', 'R'} && t[1] in {'e', 'E'} && t[2] in {'l', 'L'}
    && (|t| > 3 ==> t[3] == '=')
  }

  lemma RelKeyIff(t: string)
    ensures ToLower(KeyOf(t)) == "rel" <==> IsRel(t)
    ensures IsRel(t) ==> ValueOf(t) == if |t| == 3 then "" else Trim(t[4..], {'"'})
  {
    var i := IndexOf(t, '=');
    var key := t[..i];
    ToLowerIs(key);
    assert forall k | 0 <= k < i :: key[k] == t[k] && t[k] != '=';
    if ToLower(key) == "rel" {
      assert |key| == 3;
      assert ToLower(key)[0] == 'r' && ToLower(key)[1] == 'e' && ToLower(key)[2] == 'l';
    }
    if IsRel(t) {
      assert i == 3;
      var low := ToLower(key);
      assert low[0] == 'r' && low[1] == 'e' && low[2] == 'l';
      assert low == "rel";
    }
  }

  /** What one token does, trimmed of spaces. */
  lemma TokenMeans(e: Entry, t: string)
    ensures var token, r := TrimSpace(t), ReadToken(e, t);
            && r.url == (if IsUrl(token) then TrimSpace(Trim(token, {'<', '>'})) else e.url)
            && r.rel == (if !IsRel(token) then e.rel else if |token| == 3 then "" else Trim(token[4..], {'"'}))
  {
    RelKeyIff(TrimSpace(t));
  }

  /** The token at `i` is the last of its kind. */
  predicate LastUrl(tokens: seq<string>, i: nat) {
    i < |tokens| && IsUrl(TrimSpace(tokens[i])) && forall j | i < j < |tokens| :: !IsUrl(TrimSpace(tokens[j]))
  }

  predicate LastRel(tokens: seq<string>, i: nat) {
    i < |tokens| && IsRel(TrimSpace(tokens[i])) && forall j | i < j < |tokens| :: !IsRel(TrimSpace(tokens[j]))
  }

  /** Whatever an entry's tokens are and in whatever order, the last in brackets gives the URL and
      the last with the key "rel" the relation; other parameters are passed over. */
  lemma {:induction false} TokensMean(e: Entry, tokens: seq<string>)
    ensures var r := ReadTokens(e, tokens);
            && (forall i: nat | LastUrl(tokens, i) :: r.url == TrimSpace(Trim(TrimSpace(tokens[i]), {'<', '>'})))
            && ((forall i | 0 <= i < |tokens| :: !IsUrl(TrimSpace(tokens[i]))) ==> r.url == e.url)
            && (forall i: nat | LastRel(tokens, i) ::
                  var token := TrimSpace(tokens[i]);
                  r.rel == if |token| == 3 then "" else Trim(token[4..], {'"'}))
            && ((forall i | 0 <= i < |tokens| :: !IsRel(TrimSpace(tokens[i]))) ==> r.rel == e.rel)
    decreases tokens
  {
    if tokens != [] {
      var rest := tokens[1..];
      TokenMeans(e, tokens[0]);
      TokensMean(ReadToken(e, tokens[0]), rest);
      assert forall i | 0 <= i < |rest| :: rest[i] == tokens[i + 1];
      assert forall i: nat | i > 0 && LastUrl(tokens, i) :: LastUrl(rest, i - 1);
      assert forall i: nat | i > 0 && LastRel(tokens, i) :: LastRel(rest, i - 1);
    }
  }

  /** Any text between commas is read as its tokens between semicolons. */
  lemma EntryMeans(s: string)
    ensures var tokens, r := Split(TrimSpace(s), ';'), ParseEntry(s);
            && (forall i: nat | LastUrl(tokens, i) :: r.url == TrimSpace(Trim(TrimSpace(tokens[i]), {'<', '>'})))
            && ((forall i | 0 <= i < |tokens| :: !IsUrl(TrimSpace(tokens[i]))) ==> r.url == "")
            && (forall i: nat | LastRel(tokens, i) ::
                  var token := TrimSpace(tokens[i]);
                  r.rel == if |token| == 3 then "" else Trim(token[4..], {'"'}))
            && ((forall i | 0 <= i < |tokens| :: !IsRel(TrimSpace(tokens[i]))) ==> r.rel == "")
  {
    TokensMean(Entry("", ""), Split(TrimSpace(s), ';'));
  }

  /** Any header has one entry for each text between commas, each read by itself. */
  lemma {:induction false} HeaderMeans(parts: seq<string>)
    ensures |ParseEntries(parts)| == |parts|
    ensures forall i | 0 <= i < |parts| :: ParseEntries(parts)[i] == ParseEntry(parts[i])
  {
    if parts != [] {
      HeaderMeans(parts[1..]);
    }
  }

  // ---------- the parser as it runs ----------

  /** The inner loop, over the tokens of one entry. */
  method ReadEntry(e: string) returns (entry: Entry)
    ensures entry == ParseEntry(e)
  {
    entry := Entry("", "");
    var tokens := Split(TrimSpace(e), ';');
    var j := 0;
    while j < |tokens|
      invariant 0 <= j <= |tokens|
      invariant ReadTokens(Entry("", ""), tokens) == ReadTokens(entry, tokens[j..])
    {
      assert tokens[j..][1..] == tokens[j + 1..];
      ghost var before := entry;
      var token := TrimSpace(tokens[j]);
      j := j + 1;
      if token == "" {
        continue;
      }
      if token[0] == '<' && token[|token| - 1] == '>' {
        entry := entry.(url := TrimSpace(Trim(token, {'<', '>'})));
      }
      var key, val := KeyOf(token), ValueOf(token);
      if ToLower(key) == "rel" {
        entry := entry.(rel := val);
      }
      assert entry == ReadToken(before, tokens[j - 1]);
    }
  }

  method ParseLinkHeader(h: string) returns (result: seq<Entry>)
    ensures result == Parse(h)
  {
    result := [];
    if h == "" {
      return;
    }
    var entries := Split(h, ',');
    var i := 0;
    while i < |entries|
      invariant 0 <= i <= |entries|
      invariant ParseEntries(entries) == result + ParseEntries(entries[i..])
    {
      assert entries[i..][1..] == entries[i + 1..];
      var entry := ReadEntry(entries[i]);
      ConcatAssociates(result, [entry], ParseEntries(entries[i + 1..]));
      result := result + [entry];
      i := i + 1;
    }
  }

  /** The first entry with this relation. */
  function First(links: seq<Entry>, rel: string): Option<Entry> {
    if links == [] then None else if links[0].rel == rel then Some(links[0]) else First(links[1..], rel)
  }

  method Find(links: seq<Entry>, rel: string) returns (found: Option<Entry>)
    ensures found == First(links, rel)
    ensures found.Some? <==> exists e :: e in links && e.rel == rel
    ensures found.Some? ==> exists k | 0 <= k < |links| ::
              links[k] == found.value && links[k].rel == rel && forall j | 0 <= j < k :: links[j].rel != rel
  {
    var i := 0;
    while i < |links|
      invariant 0 <= i <= |links|
      invariant forall j | 0 <= j < i :: links[j].rel != rel
      invariant First(links, rel) == First(links[i..], rel)
    {
      if links[i].rel == rel {
        return Some(links[i]);
      }
      i := i + 1;
    }
    found := None;
  }

  // ---------- the printer ----------

  function PrintEntry(e: Entry): string {
    "<" + e.url + ">; rel=\"" + e.rel + "\""
  }

  /** Entries joined by ", ". */
  function Print(es: seq<Entry>): string {
    if es == [] then ""
    else if |es| == 1 then PrintEntry(es[0])
    else PrintEntry(es[0]) + ", " + Print(es[1..])
  }

  /** What an entry must be for its text to be unambiguous: no ',' or ';', a URL that neither
      starts nor ends with '<', '>' or a space, and a relation that neither starts nor ends
      with a quote. '=' is welcome everywhere. */
  predicate Clean(e: Entry) {
    && ',' !in e.url && ';' !in e.url
    && ',' !in e.rel && ';' !in e.rel
    && Bare(e.url, {'<', '>'}) && Bare(e.url, SPACES)
    && Bare(e.rel, {'"'})
  }

  // ---------- one entry ----------

  lemma UrlToken(e: Entry, url: string)
    ensures ReadToken(e, "<" + url + ">") == e.(url := TrimSpace(Trim(url, {'<', '>'})))
  {
    var token := "<" + url + ">";
    assert token[0] == '<' && token[|token| - 1] == '>';
    TrimIdentity(token, SPACES);
    assert token == ['<'] + url + ['>'];
    TrimWrapped('<', url, '>', {'<', '>'});
    var key := KeyOf(token);
    if key != "" {
      assert key[0] == '<';
      assert ToLower(key)[0] == '<';
    }
  }

  lemma RelToken(e: Entry, rel: string)
    ensures ReadToken(e, " rel=\"" + rel + "\"") == e.(rel := Trim(rel, {'"'}))
  {
    var token := "rel=\"" + rel + "\"";
    var t := " rel=\"" + rel + "\"";
    assert t == " " + token;
    assert t[0] == ' ' && t[1..] == token && token[0] == 'r' && token[|token| - 1] == '"';
    TrimIdentity(token, SPACES);
    assert TrimSpace(t) == TrimSpace(token) == token;
    assert token == "rel" + ['='] + (['"'] + rel + ['"']);
    RelKey(token, ['"'] + rel + ['"']);
    TrimWrapped('"', rel, '"', {'"'});
  }

  lemma RelKey(token: string, rest: string)
    requires token == "rel" + ['='] + rest
    ensures IndexOf(token, '=') == 3 && KeyOf(token) == "rel" && token[4..] == rest
    ensures ToLower(KeyOf(token)) == "rel"
  {
    assert token[0] == 'r' && token[1] == 'e' && token[2] == 'l' && token[3] == '=';
    var i := IndexOf(token, '=');
    assert forall k | 0 <= k < i :: token[..i][k] == token[k];
    assert i == 3;
    assert token[..3] == "rel";
    assert ToLower("rel") == "rel";
  }

  lemma PrintEnds(e: Entry)
    ensures var p := PrintEntry(e);
            p != "" && p[0] == '<' && p[|p| - 1] == '"'
  {
  }

  lemma EntryTrims(e: Entry, s: string)
    requires s == PrintEntry(e) || s == " " + PrintEntry(e)
    ensures TrimSpace(s) == PrintEntry(e)
  {
    var p := PrintEntry(e);
    PrintEnds(e);
    assert Bare(p, SPACES);
    TrimIdentity(p, SPACES);
    TrimLead(' ', p, SPACES);
  }

  lemma EntryTokens(e: Entry)
    requires ';' !in e.url && ';' !in e.rel
    ensures Split(PrintEntry(e), ';') == ["<" + e.url + ">", " rel=\"" + e.rel + "\""]
  {
    var head, tail := "<" + e.url + ">", " rel=\"" + e.rel + "\"";
    assert forall c | c in head :: c == '<' || c in e.url || c == '>';
    assert forall c | c in tail :: c in " rel=\"" || c in e.rel || c == '"';
    assert ';' !in head && ';' !in tail;
    assert PrintEntry(e) == head + [';'] + tail;
    SplitFirst(head, tail, ';');
    SplitAlone(tail, ';');
  }

  lemma ReadTwo(e: Entry, t: string, u: string)
    ensures ReadTokens(e, [t, u]) == ReadToken(ReadToken(e, t), u)
  {
    assert [t, u][1..] == [u] && [u][1..] == [];
    assert ReadTokens(ReadToken(e, t), [u]) == ReadTokens(ReadToken(ReadToken(e, t), u), []);
  }

  /** The text of an entry without ';' reads back as the entry, trimmed. */
  lemma EntryReadsBack(e: Entry)
    requires ';' !in e.url && ';' !in e.rel
    ensures ParseEntry(PrintEntry(e)) == Entry(TrimSpace(Trim(e.url, {'<', '>'})), Trim(e.rel, {'"'}))
  {
    var head, tail := "<" + e.url + ">", " rel=\"" + e.rel + "\"";
    var half := Entry(TrimSpace(Trim(e.url, {'<', '>'})), "");
    EntryTrims(e, PrintEntry(e));
    EntryTokens(e);
    ReadTwo(Entry("", ""), head, tail);
    assert ReadToken(Entry("", ""), head) == half by { UrlToken(Entry("", ""), e.url); }
    assert ReadToken(half, tail) == half.(rel := Trim(e.rel, {'"'})) by { RelToken(half, e.rel); }
  }

  lemma TokenHasNoSemicolon(e: Entry, t: string)
    requires ';' !in e.url && ';' !in e.rel && ';' !in t
    ensures var r := ReadToken(e, t);
            ';' !in r.url && ';' !in r.rel
  {
    var token := TrimSpace(t);
    TrimIdentity(t, SPACES);
    assert ';' !in TrimSpace(Trim(token, {'<', '>'})) by {
      TrimIdentity(token, {'<', '>'});
      TrimIdentity(Trim(token, {'<', '>'}), SPACES);
    }
    assert ';' !in ValueOf(token) by {
      var i := IndexOf(token, '=');
      if i < |token| {
        assert forall c | c in token[i + 1..] :: c in token;
        TrimIdentity(token[i + 1..], {'"'});
      }
    }
  }

  /** Nothing the parser reads out of an entry contains ';'. */
  lemma {:induction false} TokensHaveNoSemicolon(e: Entry, tokens: seq<string>)
    requires ';' !in e.url && ';' !in e.rel
    requires forall t | t in tokens :: ';' !in t
    ensures var r := ReadTokens(e, tokens);
            ';' !in r.url && ';' !in r.rel
    decreases tokens
  {
    if tokens != [] {
      TokenHasNoSemicolon(e, tokens[0]);
      TokensHaveNoSemicolon(ReadToken(e, tokens[0]), tokens[1..]);
    }
  }

  /** An entry without ',' in it survives exactly when it is clean. */
  lemma EntrySurvives(e: Entry)
    requires ',' !in PrintEntry(e)
    ensures ParseEntry(PrintEntry(e)) == e <==> Clean(e)
  {
    PartsOf(e);
    if ParseEntry(PrintEntry(e)) == e {
      var tokens := Split(TrimSpace(PrintEntry(e)), ';');
      SplitPartsFree(TrimSpace(PrintEntry(e)), ';');
      assert forall t | t in tokens :: ';' !in t;
      TokensHaveNoSemicolon(Entry("", ""), tokens);
    }
    if ';' !in e.url && ';' !in e.rel {
      EntryReadsBack(e);
      TrimBoth(e.url);
      TrimIdentity(e.rel, {'"'});
    }
  }

  lemma PartsOf(e: Entry)
    ensures ',' !in PrintEntry(e) <==> ',' !in e.url && ',' !in e.rel
  {
    assert forall i | 0 <= i < |e.url| :: e.url[i] == PrintEntry(e)[1 + i];
    assert forall i | 0 <= i < |e.rel| :: e.rel[i] == PrintEntry(e)[|e.url| + 9 + i];
  }

  lemma TrimBoth(url: string)
    ensures TrimSpace(Trim(url, {'<', '>'})) == url <==> Bare(url, {'<', '>'}) && Bare(url, SPACES)
  {
    TrimIdentity(url, {'<', '>'});
    TrimIdentity(Trim(url, {'<', '>'}), SPACES);
  }

  // ---------- the whole header ----------

  /** How many commas the texts of the entries contain. */
  function Commas(es: seq<Entry>): nat {
    if es == [] then 0 else Count(PrintEntry(es[0]), ',') + Commas(es[1..])
  }

  lemma {:induction false} PrintCommas(es: seq<Entry>)
    requires es != []
    ensures Count(Print(es), ',') == |es| - 1 + Commas(es)
  {
    if |es| == 1 {
      assert es[1..] == [];
    } else {
      CountConcat(PrintEntry(es[0]) + ", ", Print(es[1..]), ',');
      CountConcat(PrintEntry(es[0]), ", ", ',');
      assert Count(", ", ',') == 1 by {
        assert ", "[1..] == " " && " "[1..] == "";
      }
      PrintCommas(es[1..]);
    }
  }

  lemma {:induction false} CommasZero(es: seq<Entry>)
    ensures Commas(es) == 0 <==> forall e | e in es :: ',' !in PrintEntry(e)
  {
    if es != [] {
      CountZero(PrintEntry(es[0]), ',');
      CommasZero(es[1..]);
      assert forall e :: e in es <==> e == es[0] || e in es[1..];
    }
  }

  /** The entries, each printed and parsed by itself. */
  function Backs(es: seq<Entry>): seq<Entry> {
    if es == [] then [] else [ParseEntry(PrintEntry(es[0]))] + Backs(es[1..])
  }

  lemma CommaJoins(lead: string, a: string, b: string)
    ensures lead + (a + ", " + b) == (lead + a) + [','] + (" " + b)
  {
  }

  /** The header splits off its first entry. */
  lemma PrintSplits(lead: string, es: seq<Entry>)
    requires es != [] && (lead == "" || lead == " ") && ',' !in PrintEntry(es[0])
    ensures Split(lead + Print(es), ',')
         == [lead + PrintEntry(es[0])] + if |es| == 1 then [] else Split(" " + Print(es[1..]), ',')
  {
    var part := lead + PrintEntry(es[0]);
    assert ',' !in part;
    if |es| == 1 {
      SplitAlone(part, ',');
    } else {
      var rest := " " + Print(es[1..]);
      CommaJoins(lead, PrintEntry(es[0]), Print(es[1..]));
      SplitFirst(part, rest, ',');
    }
  }

  lemma LeadTrims(lead: string, e: Entry)
    requires lead == "" || lead == " "
    ensures ParseEntry(lead + PrintEntry(e)) == ParseEntry(PrintEntry(e))
  {
    assert lead == "" ==> lead + PrintEntry(e) == PrintEntry(e);
    EntryTrims(e, lead + PrintEntry(e));
    EntryTrims(e, PrintEntry(e));
  }

  lemma {:induction false} ParsePrinted(lead: string, es: seq<Entry>)
    requires es != [] && (lead == "" || lead == " ")
    requires forall e | e in es :: ',' !in PrintEntry(e)
    ensures ParseEntries(Split(lead + Print(es), ',')) == Backs(es)
    decreases es
  {
    assert es[0] in es;
    PrintSplits(lead, es);
    LeadTrims(lead, es[0]);
    var parts := Split(lead + Print(es), ',');
    if |es| == 1 {
      assert es[1..] == [] && parts[1..] == [];
    } else {
      ParsePrinted(" ", es[1..]);
      assert parts[1..] == Split(" " + Print(es[1..]), ',');
    }
  }

  lemma {:induction false} BacksIdentity(es: seq<Entry>)
    requires forall e | e in es :: ',' !in PrintEntry(e)
    ensures Backs(es) == es <==> forall e | e in es :: Clean(e)
  {
    if es != [] {
      assert es[0] in es;
      EntrySurvives(es[0]);
      BacksIdentity(es[1..]);
      assert Backs(es)[1..] == Backs(es[1..]);
      assert forall e :: e in es <==> e == es[0] || e in es[1..];
      assert es == [es[0]] + es[1..];
    }
  }

  /** Round trip: a list of entries, printed and parsed, comes back the same exactly when every
      one of them is clean. */
  lemma RoundTrip(es: seq<Entry>)
    ensures Parse(Print(es)) == es <==> forall e | e in es :: Clean(e)
  {
    if es != [] {
      var h := Print(es);
      assert h[0] == '<';
      SplitLength(h, ',');
      HeaderMeans(Split(h, ','));
      PrintCommas(es);
      CommasZero(es);
      if Parse(h) == es {
        assert Commas(es) == 0;
      }
      if forall e | e in es :: Clean(e) {
        forall e | e in es
          ensures ',' !in PrintEntry(e)
        {
          PartsOf(e);
        }
      }
      if forall e | e in es :: ',' !in PrintEntry(e) {
        assert "" + h == h;
        ParsePrinted("", es);
        BacksIdentity(es);
      }
    }
  }
}
