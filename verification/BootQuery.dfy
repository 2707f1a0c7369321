/** The boot query: printed into the kernel command line by `generator.py`, parsed back by
    the two parsers of `bootinfo.go` and by `tools.py`. */
module BootQuery {
  import opened Prelude
  import opened Text
  import opened Machines
  import Locksmith

  // ---------- text functions ----------

  predicate OccursAt(s: string, sep: string, p: nat) {
    p + |sep| <= |s| && s[p..p + |sep|] == sep
  }

  lemma OccursInTail(s: string, sep: string)
    requires s != []
    ensures forall p: nat :: p > 0 ==> (OccursAt(s, sep, p) <==> OccursAt(s[1..], sep, p - 1))
  {
    forall p: nat | p > 0 ensures OccursAt(s, sep, p) <==> OccursAt(s[1..], sep, p - 1) {
      if p + |sep| <= |s| {
        var a, b := s[p..p + |sep|], s[1..][p - 1..p - 1 + |sep|];
        assert |a| == |b| && forall k :: 0 <= k < |a| ==> a[k] == s[p + k] && b[k] == s[p + k];
        assert a == b;
      }
    }
  }

  /** Where the separator first occurs. */
  function Find(s: string, sep: string): (r: Option<nat>)
    requires sep != []
    ensures r.Some? ==> OccursAt(s, sep, r.value) && forall p: nat :: OccursAt(s, sep, p) ==> r.value <= p
    ensures r.None? ==> forall p: nat :: !OccursAt(s, sep, p)
    decreases |s|
  {
    if |s| < |sep| then None
    else if s[..|sep|] == sep then Some(0)
    else
      var rest := Find(s[1..], sep);
      assert forall p: nat :: p > 0 ==> (OccursAt(s, sep, p) <==> OccursAt(s[1..], sep, p - 1)) by { OccursInTail(s, sep); }
      assert !OccursAt(s, sep, 0);
      if rest.Some? then
        assert OccursAt(s, sep, rest.value + 1);
        Some(rest.value + 1)
      else None
  }

  predicate Contains(s: string, sep: string)
    requires sep != []
  {
    Find(s, sep).Some?
  }

  /** Go's `strings.Split`. */
  function SplitBy(s: string, sep: string): (r: seq<string>)
    requires sep != []
    ensures r != [] && (Contains(s, sep) ==> |r| >= 2)
    decreases |s|
  {
    var i := Find(s, sep);
    if i.None? then [s] else [s[..i.value]] + SplitBy(s[i.value + |sep|..], sep)
  }

  /** Go's `strings.SplitAfter`. */
  function SplitAfterBy(s: string, sep: string): (r: seq<string>)
    requires sep != []
    ensures r != []
    decreases |s|
  {
    var i := Find(s, sep);
    if i.None? then [s] else [s[..i.value + |sep|]] + SplitAfterBy(s[i.value + |sep|..], sep)
  }

  /** Python's `s.replace(sep, "")`. */
  function Removed(s: string, sep: string): string
    requires sep != []
    decreases |s|
  {
    var i := Find(s, sep);
    if i.None? then s else s[..i.value] + Removed(s[i.value + |sep|..], sep)
  }

  function ReplaceChar(s: string, a: char, b: char): (r: string)
    ensures |r| == |s| && forall i :: 0 <= i < |s| ==> r[i] == if s[i] == a then b else s[i]
  {
    seq(|s|, i requires 0 <= i < |s| => if s[i] == a then b else s[i])
  }

  function Colons(s: string): string {
    ReplaceChar(s, '-', ':')
  }

  /** What Go's `unicode.IsSpace` takes for white space. */
  predicate IsSpace(c: char) {
    || c == ' ' || '\t' <= c <= '\r' || '\U{2000}' <= c <= '\U{200A}'
    || c in {'\U{85}', '\U{A0}', '\U{1680}', '\U{2028}', '\U{2029}', '\U{202F}', '\U{205F}', '\U{3000}'}
  }

  lemma PrintedIsNoSpace(s: string)
    requires forall c :: c in s ==> ' ' < c <= '~'
    ensures forall c :: c in s ==> !IsSpace(c)
  {}

  function Blank(s: string): (r: string)
    ensures |r| == |s| && forall i :: 0 <= i < |s| ==> r[i] == if IsSpace(s[i]) then ' ' else s[i]
  {
    seq(|s|, i requires 0 <= i < |s| => if IsSpace(s[i]) then ' ' else s[i])
  }

  function NonEmpty(l: seq<string>): seq<string> {
    if l == [] then [] else (if l[0] == "" then [] else [l[0]]) + NonEmpty(l[1..])
  }

  /** Go's `strings.Fields`. */
  function Fields(s: string): seq<string> {
    NonEmpty(SplitOn(Blank(s), ' '))
  }

  // ---------- the parsers ----------

  const CONFIG_URL: string := "coreos.config.url="
  const UUID_FIELD: string := "uuid="
  const MAC_FIELD: string := "mac="
  const RAW_QUERY: string := "REQUEST_RAW_QUERY="
  const IGNITION: string := "/ignition?"
  const IGNITION_PXE: string := "/ignition-pxe?"

  datatype BootInfo = BootInfo(uuid: string, mac: string)

  /** `getCoreosConfigUrl`: what follows the key in the first word that has it. */
  method GetCoreosConfigUrl(cmdline: string) returns (r: Option<string>)
    ensures r == FirstAfter(Fields(cmdline), CONFIG_URL)
  {
    var words := Fields(cmdline);
    for i := 0 to |words|
      invariant FirstAfter(words, CONFIG_URL) == FirstAfter(words[i..], CONFIG_URL)
    {
      if Contains(words[i], CONFIG_URL) {
        return Some(SplitBy(words[i], CONFIG_URL)[1]);
      }
      assert words[i..][1..] == words[i + 1..];
    }
    r := None;
  }

  function FirstAfter(words: seq<string>, key: string): Option<string>
    requires key != []
  {
    if words == [] then None
    else if Contains(words[0], key) then Some(SplitBy(words[0], key)[1])
    else FirstAfter(words[1..], key)
  }

  /** What follows the field in the last argument that contains it. */
  function LastAfter(args: seq<string>, field: string): string
    requires field != []
  {
    if args == [] then ""
    else
      var last := args[|args| - 1];
      if Contains(last, field) then SplitBy(last, field)[1] else LastAfter(args[..|args| - 1], field)
  }

  /** The part of the URL after the path of either route. */
  function QueryOf(url: string): Option<string> {
    if |SplitAfterBy(url, IGNITION_PXE)| == 2 then Some(SplitAfterBy(url, IGNITION_PXE)[1])
    else if |SplitAfterBy(url, IGNITION)| == 2 then Some(SplitAfterBy(url, IGNITION)[1])
    else None
  }

  /** `getBootInfoFromUrl` */
  method GetBootInfoFromUrl(url: string) returns (r: Option<BootInfo>)
    ensures r.Some? <==> QueryOf(url).Some?
    ensures r.Some? ==> r.value == FromArguments(SplitOn(QueryOf(url).value, '&'))
  {
    var query := SplitAfterBy(url, IGNITION_PXE);
    if |query| != 2 {
      query := SplitAfterBy(url, IGNITION);
      if |query| != 2 {
        return None;
      }
    }
    var args := SplitOn(query[1], '&');
    var info := BootInfo("", "");
    for i := 0 to |args|
      invariant info == FromArguments(args[..i])
    {
      assert args[..i + 1][..i] == args[..i];
      if Contains(args[i], UUID_FIELD) {
        info := info.(uuid := SplitBy(args[i], UUID_FIELD)[1]);
      }
      if Contains(args[i], MAC_FIELD) {
        info := info.(mac := Colons(SplitBy(args[i], MAC_FIELD)[1]));
      }
    }
    assert args[..|args|] == args;
    r := Some(info);
  }

  function FromArguments(args: seq<string>): BootInfo {
    BootInfo(LastAfter(args, UUID_FIELD), Colons(LastAfter(args, MAC_FIELD)))
  }

  /** What the metadata parser makes of its file; a selector `uuid` or `mac` without a
      value makes it crash. */
  datatype Parsed = Found(info: BootInfo) | NotFound | Crash

  /** The value of the last selector of exactly that key. */
  function LastOf(selectors: seq<string>, key: string): string {
    if selectors == [] then ""
    else
      var kv := SplitOn(selectors[|selectors| - 1], '=');
      if kv[0] == key && |kv| > 1 then kv[1] else LastOf(selectors[..|selectors| - 1], key)
  }

  predicate Bare(selector: string) {
    selector == "uuid" || selector == "mac"
  }

  /** `getBootInfoFromMetadata` */
  method GetBootInfoFromMetadata(text: string) returns (r: Parsed)
    ensures r == FromMetadata(text)
  {
    hide LastOf;
    var words := Fields(text);
    for i := 0 to |words|
      invariant FirstAfter(words, RAW_QUERY) == FirstAfter(words[i..], RAW_QUERY)
    {
      if Contains(words[i], RAW_QUERY) {
        var line := Removed(SplitBy(words[i], RAW_QUERY)[1], "'");
        r := ReadSelectors(SplitOn(line, '&'));
        return;
      }
      assert words[i..][1..] == words[i + 1..];
    }
    r := NotFound;
  }

  method ReadSelectors(selectors: seq<string>) returns (r: Parsed)
    ensures r == FromSelectors(selectors)
  {
    var info := BootInfo("", "");
    for i := 0 to |selectors|
      invariant forall j :: 0 <= j < i ==> !Bare(selectors[j])
      invariant info == BootInfo(LastOf(selectors[..i], "uuid"), Colons(LastOf(selectors[..i], "mac")))
    {
      assert selectors[..i + 1][..i] == selectors[..i];
      BareIsAlone(selectors[i]);
      var kv := SplitOn(selectors[i], '=');
      if kv[0] == "uuid" {
        if |kv| == 1 { return Crash; }
        info := info.(uuid := kv[1]);
      } else if kv[0] == "mac" {
        if |kv| == 1 { return Crash; }
        info := info.(mac := Colons(kv[1]));
      }
    }
    assert selectors[..|selectors|] == selectors;
    r := Found(info);
  }

  lemma BareIsAlone(selector: string)
    ensures Bare(selector) <==> SplitOn(selector, '=') == ["uuid"] || SplitOn(selector, '=') == ["mac"]
  {
    JoinUndoesSplit(selector, '=');
    if Bare(selector) {
      SplitHead(selector, '=', "");
    }
  }

  function FromSelectors(selectors: seq<string>): Parsed {
    if exists j :: 0 <= j < |selectors| && Bare(selectors[j]) then Crash
    else Found(BootInfo(LastOf(selectors, "uuid"), Colons(LastOf(selectors, "mac"))))
  }

  function FromMetadata(text: string): Parsed {
    var line := FirstAfter(Fields(text), RAW_QUERY);
    if line.None? then NotFound else FromSelectors(SplitOn(Removed(line.value, "'"), '&'))
  }

  /** `get_mac_from_raw_query`; None where it raises. */
  method GetMacFromRawQuery(query: string) returns (r: Option<string>)
    ensures var mac := LastRemoved(SplitOn(query, '&'));
      r == if mac == "" then None else Some(Colons(mac))
  {
    var mac := "";
    var params := SplitOn(query, '&');
    for i := 0 to |params|
      invariant mac == LastRemoved(params[..i])
    {
      assert params[..i + 1][..i] == params[..i];
      if Contains(params[i], MAC_FIELD) {
        mac := Removed(params[i], MAC_FIELD);
      }
    }
    assert params[..|params|] == params;
    r := if mac == "" then None else Some(Colons(mac));
  }

  function LastRemoved(params: seq<string>): string {
    if params == [] then ""
    else
      var last := params[|params| - 1];
      if Contains(last, MAC_FIELD) then Removed(last, MAC_FIELD) else LastRemoved(params[..|params| - 1])
  }

  // ---------- finding things in printed text ----------

  lemma OccursEnds(s: string, sep: string, p: nat)
    requires sep != [] && OccursAt(s, sep, p)
    ensures s[p + |sep| - 1] == sep[|sep| - 1]
    ensures forall k :: 0 <= k < |sep| ==> s[p + k] == sep[k]
  {
    forall k | 0 <= k < |sep| ensures s[p + k] == sep[k] {
      assert s[p..p + |sep|][k] == s[p + k];
    }
  }

  /** A separator whose last character stands only at q occurs at most once. */
  lemma AtMostOnce(s: string, sep: string, q: nat)
    requires sep != [] && forall i :: 0 <= i < |s| && s[i] == sep[|sep| - 1] ==> i == q
    ensures forall p: nat :: OccursAt(s, sep, p) ==> p + |sep| == q + 1
  {
    forall p: nat | OccursAt(s, sep, p) ensures p + |sep| == q + 1 {
      OccursEnds(s, sep, p);
    }
  }

  lemma NotInside(s: string, sep: string)
    requires sep != [] && sep[|sep| - 1] !in s
    ensures !Contains(s, sep) && SplitBy(s, sep) == [s] && SplitAfterBy(s, sep) == [s] && Removed(s, sep) == s
  {
    forall p: nat | OccursAt(s, sep, p) ensures false {
      OccursEnds(s, sep, p);
    }
  }

  /** head + sep + tail, where the last character of the separator is found nowhere else. */
  lemma SplitOnce(head: string, sep: string, tail: string)
    requires sep != [] && sep[|sep| - 1] !in head && sep[|sep| - 1] !in tail && sep[|sep| - 1] !in sep[..|sep| - 1]
    ensures Contains(head + sep + tail, sep)
    ensures SplitBy(head + sep + tail, sep) == [head, tail]
    ensures SplitAfterBy(head + sep + tail, sep) == [head + sep, tail]
    ensures Removed(head + sep + tail, sep) == head + tail
  {
    var s := head + sep + tail;
    assert s[|head|..|head| + |sep|] == sep;
    assert OccursAt(s, sep, |head|);
    assert forall i :: |head| <= i < |head| + |sep| - 1 ==> s[i] == sep[..|sep| - 1][i - |head|];
    AtMostOnce(s, sep, |head| + |sep| - 1);
    assert s[|head| + |sep|..] == tail && s[..|head|] == head && s[..|head| + |sep|] == head + sep;
    NotInside(tail, sep);
  }

  /** A field that is not preceded by its own next-to-last character does not occur. */
  lemma OtherField(head: string, c: char, tail: string, sep: string)
    requires |sep| >= 2 && sep[|sep| - 1] == c && c !in head && c !in tail
    requires head == [] || head[|head| - 1] != sep[|sep| - 2]
    ensures !Contains(head + [c] + tail, sep) && SplitAfterBy(head + [c] + tail, sep) == [head + [c] + tail]
  {
    hide Find, SplitBy, SplitAfterBy, Contains, OccursAt;
    var s := head + [c] + tail;
    forall i | 0 <= i < |s| && s[i] == c ensures i == |head| {}
    AtMostOnce(s, sep, |head|);
    forall p: nat | OccursAt(s, sep, p) ensures p + |sep| == |head| + 1 && s[p + (|sep| - 2)] == sep[|sep| - 2] {
      OccursEnds(s, sep, p);
    }
    Nowhere(s, sep);
  }

  lemma Nowhere(s: string, sep: string)
    requires sep != [] && forall p: nat :: !OccursAt(s, sep, p)
    ensures !Contains(s, sep) && SplitBy(s, sep) == [s] && SplitAfterBy(s, sep) == [s]
  {}

  // ---------- key and value pairs ----------

  datatype Pair = Pair(key: string, value: string)

  /** No separator of the query, no blank and no quote. */
  predicate Plain(s: string) {
    forall c :: c in s ==> c != '&' && c != '=' && c != '\'' && !IsSpace(c)
  }

  ghost predicate PlainPairs(ps: seq<Pair>) {
    forall p :: p in ps ==> Plain(p.key) && Plain(p.value)
  }

  function Argument(p: Pair): string {
    p.key + "=" + p.value
  }

  function Arguments(ps: seq<Pair>): (r: seq<string>)
    ensures |r| == |ps| && forall i :: 0 <= i < |ps| ==> r[i] == Argument(ps[i])
  {
    seq(|ps|, i requires 0 <= i < |ps| => Argument(ps[i]))
  }

  function Query(ps: seq<Pair>): string {
    JoinWith(Arguments(ps), '&')
  }

  predicate EndsWith(s: string, end: string) {
    |end| <= |s| && s[|s| - |end|..] == end
  }

  /** The last pair whose key ends with the word. */
  function LastEnding(ps: seq<Pair>, word: string): Option<Pair> {
    if ps == [] then None
    else if EndsWith(ps[|ps| - 1].key, word) then Some(ps[|ps| - 1])
    else LastEnding(ps[..|ps| - 1], word)
  }

  /** The last pair of exactly that key. */
  function LastKeyed(ps: seq<Pair>, word: string): Option<Pair> {
    if ps == [] then None
    else if ps[|ps| - 1].key == word then Some(ps[|ps| - 1])
    else LastKeyed(ps[..|ps| - 1], word)
  }

  function ValueOf(p: Option<Pair>): string {
    if p.Some? then p.value.value else ""
  }

  lemma QueryArguments(ps: seq<Pair>)
    requires ps != [] && PlainPairs(ps)
    ensures SplitOn(Query(ps), '&') == Arguments(ps)
  {
    forall a | a in Arguments(ps) ensures '&' !in a {
      var i :| 0 <= i < |ps| && Arguments(ps)[i] == a;
      assert ps[i] in ps;
    }
    SplitUndoesJoin(Arguments(ps), '&');
  }

  lemma ArgumentSplit(p: Pair, word: string)
    requires Plain(p.key) && Plain(p.value) && Plain(word) && EndsWith(p.key, word)
    ensures var head := p.key[..|p.key| - |word|];
      Argument(p) == head + (word + "=") + p.value && '=' !in head && '=' !in p.value && '=' !in word
  {
    var head := p.key[..|p.key| - |word|];
    assert p.key == head + word;
    assert forall c :: c in head ==> c in p.key;
  }

  lemma FieldFound(p: Pair, word: string)
    requires Plain(p.key) && Plain(p.value) && Plain(word) && word != [] && EndsWith(p.key, word)
    ensures var head := p.key[..|p.key| - |word|];
      && Contains(Argument(p), word + "=")
      && SplitBy(Argument(p), word + "=") == [head, p.value] && Removed(Argument(p), word + "=") == head + p.value
  {
    ArgumentSplit(p, word);
    var field := word + "=";
    assert field[..|field| - 1] == word && field[|field| - 1] == '=';
    hide Find, SplitBy, Removed, SplitAfterBy, Argument, Plain, Contains;
    SplitOnce(p.key[..|p.key| - |word|], field, p.value);
  }

  lemma OneEquals(p: Pair)
    requires Plain(p.key) && Plain(p.value)
    ensures forall i :: 0 <= i < |Argument(p)| && Argument(p)[i] == '=' ==> i == |p.key|
  {
    var a := Argument(p);
    assert forall i :: 0 <= i < |p.key| ==> a[i] == p.key[i];
    assert forall i :: |p.key| < i < |a| ==> a[i] == p.value[i - |p.key| - 1];
    assert '=' !in p.key && '=' !in p.value;
  }

  lemma FieldEnds(p: Pair, word: string)
    requires Plain(p.key) && Plain(p.value) && Plain(word) && word != [] && Contains(Argument(p), word + "=")
    ensures EndsWith(p.key, word)
  {
    var field, a := word + "=", Argument(p);
    var q := Find(a, field).value;
    OneEquals(p);
    assert forall i :: 0 <= i < |p.key| ==> a[i] == p.key[i];
    assert field[|field| - 1] == '=';
    hide Find, Argument, Plain, Contains, OccursAt;
    AtMostOnce(a, field, |p.key|);
    OccursEnds(a, field, q);
    TailIs(p.key, word, a, q, field);
  }

  lemma TailIs(key: string, word: string, a: string, q: nat, field: string)
    requires q + |word| == |key| && |a| >= |key| && field == word + "="
    requires forall i :: 0 <= i < |key| ==> a[i] == key[i]
    requires q + |field| <= |a| && forall k :: 0 <= k < |field| ==> a[q + k] == field[k]
    ensures EndsWith(key, word)
  {
    forall k | 0 <= k < |word| ensures key[q + k] == word[k] {
      assert a[q + k] == field[k];
    }
    assert key[q..] == word;
  }

  /** An argument has the field exactly if its key ends with the field's word. */
  lemma ArgumentField(p: Pair, word: string)
    requires Plain(p.key) && Plain(p.value) && Plain(word) && word != []
    ensures Contains(Argument(p), word + "=") <==> EndsWith(p.key, word)
    ensures EndsWith(p.key, word) ==>
              && SplitBy(Argument(p), word + "=") == [p.key[..|p.key| - |word|], p.value]
              && Removed(Argument(p), word + "=") == p.key[..|p.key| - |word|] + p.value
  {
    hide *;
    if Contains(Argument(p), word + "=") { FieldEnds(p, word); }
    if EndsWith(p.key, word) { FieldFound(p, word); }
  }

  lemma {:induction false} UrlArguments(ps: seq<Pair>, word: string)
    requires PlainPairs(ps) && Plain(word) && word != []
    ensures LastAfter(Arguments(ps), word + "=") == ValueOf(LastEnding(ps, word))
  {
    if ps != [] {
      var n := |ps| - 1;
      assert ps[n] in ps;
      ArgumentField(ps[n], word);
      assert Arguments(ps)[..n] == Arguments(ps[..n]);
      UrlArguments(ps[..n], word);
    }
  }

  lemma {:induction false} MetadataArguments(ps: seq<Pair>, word: string)
    requires PlainPairs(ps)
    ensures LastOf(Arguments(ps), word) == ValueOf(LastKeyed(ps, word))
  {
    if ps != [] {
      var n := |ps| - 1;
      assert ps[n] in ps;
      SplitHead(ps[n].key, '=', ps[n].value);
      SplitHead(ps[n].value, '=', "");
      assert Arguments(ps)[..n] == Arguments(ps[..n]);
      MetadataArguments(ps[..n], word);
    }
  }

  lemma {:induction false} PythonArguments(ps: seq<Pair>)
    requires PlainPairs(ps)
    ensures LastEnding(ps, "mac").Some? ==> EndsWith(LastEnding(ps, "mac").value.key, "mac")
    ensures LastRemoved(Arguments(ps)) ==
            var last := LastEnding(ps, "mac");
            if last.None? then "" else last.value.key[..|last.value.key| - 3] + last.value.value
  {
    if ps != [] {
      var n := |ps| - 1;
      assert ps[n] in ps;
      hide IsSpace, Plain, Contains, Removed, SplitBy, Find, OccursAt, Argument, EndsWith;
      assert "mac" + "=" == MAC_FIELD;
      ArgumentField(ps[n], "mac");
      assert Arguments(ps)[..n] == Arguments(ps[..n]);
      PythonArguments(ps[..n]);
    }
  }

  // ---------- when the parsers agree ----------

  function UrlReads(ps: seq<Pair>): BootInfo {
    BootInfo(ValueOf(LastEnding(ps, "uuid")), Colons(ValueOf(LastEnding(ps, "mac"))))
  }

  function MetadataReads(ps: seq<Pair>): BootInfo {
    BootInfo(ValueOf(LastKeyed(ps, "uuid")), Colons(ValueOf(LastKeyed(ps, "mac"))))
  }

  /** None where the Python parser raises. */
  function PythonReads(ps: seq<Pair>): Option<string> {
    var mac := LastRemoved(SplitOn(Query(ps), '&'));
    if mac == "" then None else Some(Colons(mac))
  }

  /** What the URL parser's loop reads from any well formed query. */
  lemma UrlReadsQuery(ps: seq<Pair>)
    requires ps != [] && PlainPairs(ps)
    ensures FromArguments(SplitOn(Query(ps), '&')) == UrlReads(ps)
  {
    QueryArguments(ps);
    assert "uuid" + "=" == UUID_FIELD && "mac" + "=" == MAC_FIELD;
    UrlArguments(ps, "uuid");
    UrlArguments(ps, "mac");
  }

  /** What the metadata parser reads from any well formed query. */
  lemma MetadataReadsQuery(ps: seq<Pair>)
    requires ps != [] && PlainPairs(ps)
    ensures FromSelectors(SplitOn(Query(ps), '&')) == Found(MetadataReads(ps))
  {
    QueryArguments(ps);
    forall j | 0 <= j < |ps| ensures !Bare(Arguments(ps)[j]) {
      assert Arguments(ps)[j][|ps[j].key|] == '=';
    }
    MetadataArguments(ps, "uuid");
    MetadataArguments(ps, "mac");
  }

  lemma EndsWithWhole(s: string, word: string)
    ensures EndsWith(s, word) && |s| == |word| ==> s == word
  {
    assert s[0..] == s;
  }

  lemma ColonsInjective(a: string, b: string)
    ensures Colons(a) == Colons(b) ==> |a| == |b|
  {
    assert |Colons(a)| == |a| && |Colons(b)| == |b|;
  }

  /** The Python parser answers what the URL parser reads exactly if the last key that ends
      with "mac" is "mac" itself and has a value. */
  lemma PythonAgreesIff(ps: seq<Pair>)
    requires ps != [] && PlainPairs(ps)
    ensures var last := LastEnding(ps, "mac");
      PythonReads(ps) == Some(UrlReads(ps).mac) <==> last.Some? && last.value.key == "mac" && last.value.value != ""
  {
    QueryArguments(ps);
    PythonArguments(ps);
    var last := LastEnding(ps, "mac");
    if last.Some? {
      ColonsInjective(last.value.key[..|last.value.key| - 3] + last.value.value, last.value.value);
      if last.value.key == "mac" {
        assert last.value.key[..|last.value.key| - 3] + last.value.value == last.value.value;
      } else {
        EndsWithWhole(last.value.key, "mac");
      }
    }
  }

  // ---------- the URL parser and the metadata parser ----------

  /** The last key that ends with the word and the last key that is the word carry the same
      value, up to the separators of a MAC. */
  predicate SameUuid(ps: seq<Pair>) {
    ValueOf(LastEnding(ps, "uuid")) == ValueOf(LastKeyed(ps, "uuid"))
  }

  predicate SameMac(ps: seq<Pair>) {
    Colons(ValueOf(LastEnding(ps, "mac"))) == Colons(ValueOf(LastKeyed(ps, "mac")))
  }

  predicate UrlAgreesWithMetadata(ps: seq<Pair>) {
    FromSelectors(SplitOn(Query(ps), '&')) == Found(FromArguments(SplitOn(Query(ps), '&')))
  }

  predicate PythonAgreesWithUrl(ps: seq<Pair>) {
    PythonReads(ps) == Some(FromArguments(SplitOn(Query(ps), '&')).mac)
  }

  /** The URL parser and the metadata parser read the same from a well formed query if and
      only if neither word's value is overridden by a longer key that ends with it. */
  lemma UrlAgreesIff(ps: seq<Pair>)
    requires ps != [] && PlainPairs(ps)
    ensures UrlAgreesWithMetadata(ps) <==> SameUuid(ps) && SameMac(ps)
  {
    UrlReadsQuery(ps);
    MetadataReadsQuery(ps);
  }

  /** One longer key is enough to tell all three apart: "xmac=a" has the MAC "a" for the
      URL parser, none for the metadata parser and "xa" for the Python parser. */
  lemma LongerKeyDisagrees()
    ensures var ps := [Pair("xmac", "a")];
      PlainPairs(ps) && UrlReads(ps).mac == "a" && MetadataReads(ps).mac == "" && PythonReads(ps) == Some("xa")
      && !UrlAgreesWithMetadata(ps) && !PythonAgreesWithUrl(ps)
  {
    hide *;
    LongerKeyPlain();
    LongerKeyEndings();
    LongerKeyPython();
    ReadsDiffer([Pair("xmac", "a")]);
  }

  lemma ReadsDiffer(ps: seq<Pair>)
    requires ps != [] && PlainPairs(ps)
    requires UrlReads(ps).mac == "a" && MetadataReads(ps).mac == "" && PythonReads(ps) == Some("xa")
    ensures !UrlAgreesWithMetadata(ps) && !PythonAgreesWithUrl(ps)
  {
    UrlReadsQuery(ps);
    MetadataReadsQuery(ps);
    hide UrlReads, MetadataReads, PythonReads, PlainPairs, FromArguments, FromSelectors, SplitOn, Query;
    assert |"a"| != |""| && |"xa"| != |"a"|;
  }

  lemma LongerKeyPlain()
    ensures PlainPairs([Pair("xmac", "a")])
  {
    PrintedIsNoSpace("xmac");
    PrintedIsNoSpace("a");
    hide IsSpace;
  }

  lemma LongerKeyEndings()
    ensures LastEnding([Pair("xmac", "a")], "mac") == Some(Pair("xmac", "a")) && LastKeyed([Pair("xmac", "a")], "mac") == None
    ensures UrlReads([Pair("xmac", "a")]).mac == "a" && MetadataReads([Pair("xmac", "a")]).mac == ""
  {
    var ps := [Pair("xmac", "a")];
    assert ps[..0] == [];
    assert "xmac"[1..] == "mac";
    assert Colons("a") == "a" && Colons("") == "";
  }

  lemma LongerKeyPython()
    ensures PythonReads([Pair("xmac", "a")]) == Some("xa")
  {
    hide Plain, PlainPairs, EndsWith, SplitOn, JoinWith;
    var ps := [Pair("xmac", "a")];
    LongerKeyPlain();
    LongerKeyEndings();
    QueryArguments(ps);
    PythonArguments(ps);
    hide LastEnding, PlainPairs, SplitOn, Query, LastRemoved, UrlReads, MetadataReads, Arguments;
    assert "xmac"[..1] == "x" && "x" + "a" == "xa" && Colons("xa") == "xa";
  }

  lemma {:induction false} EndingIsKeyed(ps: seq<Pair>, word: string)
    requires LastEnding(ps, word).Some? && LastEnding(ps, word).value.key == word
    ensures LastKeyed(ps, word) == LastEnding(ps, word)
  {
    var n := |ps| - 1;
    EndsWithWhole(ps[n].key, word);
    if !EndsWith(ps[n].key, word) {
      assert ps[n].key != word by { assert EndsWith(word, word); }
      EndingIsKeyed(ps[..n], word);
    }
  }

  /** All three parsers agree on a well formed query if and only if no longer key overrides
      the uuid and the last key that ends with "mac" is "mac" itself and has a value. */
  lemma ParsersAgreeIff(ps: seq<Pair>)
    requires ps != [] && PlainPairs(ps)
    ensures var last := LastEnding(ps, "mac");
      UrlAgreesWithMetadata(ps) && PythonAgreesWithUrl(ps) <==>
      SameUuid(ps) && last.Some? && last.value.key == "mac" && last.value.value != ""
  {
    UrlAgreesIff(ps);
    UrlReadsQuery(ps);
    PythonAgreesIff(ps);
    var last := LastEnding(ps, "mac");
    if last.Some? && last.value.key == "mac" {
      EndingIsKeyed(ps, "mac");
    }
  }

  lemma {:induction false} SameLast(ps: seq<Pair>, word: string)
    requires forall p :: p in ps && EndsWith(p.key, word) ==> p.key == word
    ensures LastEnding(ps, word) == LastKeyed(ps, word)
  {
    if ps != [] {
      var n := |ps| - 1;
      assert ps[n] in ps;
      assert ps[n].key == word ==> EndsWith(ps[n].key, word);
      SameLast(ps[..n], word);
    }
  }

  /** So they agree where every key that ends with a word of the query is that word. */
  lemma AllParsersAgree(ps: seq<Pair>)
    requires ps != [] && PlainPairs(ps)
    requires forall p :: p in ps ==> (EndsWith(p.key, "uuid") ==> p.key == "uuid") && (EndsWith(p.key, "mac") ==> p.key == "mac")
    ensures UrlAgreesWithMetadata(ps)
    ensures ValueOf(LastEnding(ps, "mac")) != "" ==> PythonAgreesWithUrl(ps)
  {
    SameLast(ps, "uuid");
    SameLast(ps, "mac");
    UrlAgreesIff(ps);
    ParsersAgreeIff(ps);
    LastIsListed(ps, "mac");
  }

  lemma {:induction false} LastIsListed(ps: seq<Pair>, word: string)
    ensures LastEnding(ps, word).Some? ==> LastEnding(ps, word).value in ps && EndsWith(LastEnding(ps, word).value.key, word)
  {
    if ps != [] {
      LastIsListed(ps[..|ps| - 1], word);
    }
  }

  // ---------- the round trip of the boot URL ----------

  /** A MAC as the network card reports it, with hyphens. */
  predicate IsHyphenMac(s: string) {
    |s| == 17 && forall i :: 0 <= i < 17 ==> if i % 3 == 2 then s[i] == '-' else IsHex(s[i])
  }

  /** `_boot`: the URL with the variables filled in. */
  function BootUrl(apiUri: string, pxe: bool, uuid: string, mac: string): string {
    apiUri + (if pxe then IGNITION_PXE else IGNITION) + Query([Pair("uuid", uuid), Pair("mac", mac)])
  }

  /** The base of the URL is one word without `?` and `=`. */
  predicate IsBase(apiUri: string) {
    forall c :: c in apiUri ==> c != '?' && c != '=' && !IsSpace(c)
  }

  /** The same digits, with colons. */
  ghost predicate ColonForm(mac: string, colons: string) {
    |mac| == 17 && IsMac(colons) && forall i :: 0 <= i < 17 && i % 3 != 2 ==> colons[i] == mac[i]
  }

  lemma PrintedUrl(apiUri: string, pxe: bool, uuid: string, mac: string)
    requires IsHyphenMac(mac)
    ensures BootUrl(apiUri, pxe, uuid, mac) == apiUri + (if pxe then "/ignition-pxe?" else "/ignition?") + "uuid=" + uuid + "&mac=" + mac
    ensures ColonForm(mac, Colons(mac))
  {
    TwoPairs(uuid, mac);
    forall i | 0 <= i < 17
      ensures if i % 3 == 2 then Colons(mac)[i] == ':' else IsHex(Colons(mac)[i]) && Colons(mac)[i] == mac[i]
    {
      assert if i % 3 == 2 then mac[i] == '-' else IsHex(mac[i]);
    }
  }

  lemma IdsPlain(uuid: string, mac: string)
    requires IsUuid(uuid) && IsHyphenMac(mac)
    ensures Plain(uuid) && Plain(mac) && '?' !in uuid && '?' !in mac
    ensures IsMac(Colons(mac)) && Colons(mac) == Colons(Colons(mac))
  {
    assert forall i :: 0 <= i < 17 ==> mac[i] == '-' || IsHex(mac[i]);
    assert forall i :: 0 <= i < 36 ==> uuid[i] == '-' || IsHex(uuid[i]);
    forall i | 0 <= i < 17 ensures if i % 3 == 2 then Colons(mac)[i] == ':' else IsHex(Colons(mac)[i]) {
      assert if i % 3 == 2 then mac[i] == '-' else IsHex(mac[i]);
    }
  }

  lemma TwoPairs(uuid: string, mac: string)
    ensures Query([Pair("uuid", uuid), Pair("mac", mac)]) == "uuid=" + uuid + "&mac=" + mac
  {
    var args := Arguments([Pair("uuid", uuid), Pair("mac", mac)]);
    assert "uuid" + "=" == "uuid=" && "mac" + "=" == "mac=";
    assert args == ["uuid=" + uuid, "mac=" + mac];
    assert JoinWith(args[1..], '&') == "mac=" + mac;
    assert args[0] + ['&'] + ("mac=" + mac) == "uuid=" + uuid + "&mac=" + mac;
  }

  /** The URL parser finds the query after either route. */
  lemma QueryFound(apiUri: string, pxe: bool, query: string)
    requires '?' !in apiUri && '?' !in query
    ensures QueryOf(apiUri + (if pxe then IGNITION_PXE else IGNITION) + query) == Some(query)
  {
    var url := apiUri + (if pxe then IGNITION_PXE else IGNITION) + query;
    if pxe {
      SplitOnce(apiUri, IGNITION_PXE, query);
    } else {
      SplitOnce(apiUri, IGNITION, query);
      var head := apiUri + "/ignition";
      assert url == head + ['?'] + query;
      assert head[|head| - 1] == 'n' && IGNITION_PXE[|IGNITION_PXE| - 2] == 'e';
      NoPxe(url, head, query);
    }
  }

  lemma NoPxe(url: string, head: string, query: string)
    requires url == head + ['?'] + query && '?' !in head && '?' !in query && head != [] && head[|head| - 1] == 'n'
    ensures SplitAfterBy(url, IGNITION_PXE) == [url]
  {
    assert IGNITION_PXE[|IGNITION_PXE| - 1] == '?' && IGNITION_PXE[|IGNITION_PXE| - 2] == 'e';
    OtherField(head, '?', query, IGNITION_PXE);
  }

  /** The URL printed for a machine is read back as that machine's uuid and the colon form
      of its MAC, on either route. */
  lemma UrlRoundTrip(apiUri: string, pxe: bool, uuid: string, mac: string)
    requires IsBase(apiUri) && IsUuid(uuid) && IsHyphenMac(mac)
    ensures QueryOf(BootUrl(apiUri, pxe, uuid, mac)).Some?
    ensures FromArguments(SplitOn(QueryOf(BootUrl(apiUri, pxe, uuid, mac)).value, '&')) == BootInfo(uuid, Colons(mac))
    ensures BootUrl(apiUri, pxe, uuid, mac) == apiUri + (if pxe then "/ignition-pxe?" else "/ignition?") + "uuid=" + uuid + "&mac=" + mac
    ensures ColonForm(mac, Colons(mac))
  {
    hide *;
    var ps := [Pair("uuid", uuid), Pair("mac", mac)];
    PairsPlain(apiUri, pxe, uuid, mac);
    PrintedUrl(apiUri, pxe, uuid, mac);
    QueryFound(apiUri, pxe, Query(ps));
    UrlReadsQuery(ps);
    TwoEndings(uuid, mac);
  }

  lemma PairsPlain(apiUri: string, pxe: bool, uuid: string, mac: string)
    requires IsBase(apiUri) && IsUuid(uuid) && IsHyphenMac(mac)
    ensures var ps := [Pair("uuid", uuid), Pair("mac", mac)];
      PlainPairs(ps) && '?' !in apiUri && '?' !in Query(ps) && BootUrl(apiUri, pxe, uuid, mac) == apiUri + (if pxe then IGNITION_PXE else IGNITION) + Query(ps)
  {
    IdsPlain(uuid, mac);
    TwoPairs(uuid, mac);
    PrintedIsNoSpace("uuid");
    PrintedIsNoSpace("mac");
    hide IsSpace, IsUuid, IsMac, IsHyphenMac, Query;
  }

  lemma TwoEndings(uuid: string, mac: string)
    ensures UrlReads([Pair("uuid", uuid), Pair("mac", mac)]) == BootInfo(uuid, Colons(mac))
  {
    var ps := [Pair("uuid", uuid), Pair("mac", mac)];
    assert ps[..1] == [Pair("uuid", uuid)];
    assert EndsWith("mac", "mac") && EndsWith("uuid", "uuid") && !EndsWith("mac", "uuid");
    assert LastEnding(ps, "mac") == Some(ps[1]);
    assert LastEnding(ps[..1], "uuid") == Some(ps[0]);
  }

  // ---------- words of a line ----------

  predicate IsWord(w: string) {
    w != "" && forall c :: c in w ==> !IsSpace(c)
  }

  /** A line of words with one blank between them and a line feed at the end. */
  function Line(words: seq<string>): string {
    JoinWith(words, ' ') + "\n"
  }

  lemma {:induction false} JoinOneMore(words: seq<string>)
    requires words != []
    ensures JoinWith(words, ' ') + [' '] == JoinWith(words + [""], ' ')
  {
    if |words| == 1 {
      assert (words + [""])[1..] == [""];
    } else {
      JoinOneMore(words[1..]);
      assert (words + [""])[1..] == words[1..] + [""];
    }
  }

  lemma {:induction false} JoinBlanks(words: seq<string>)
    requires forall w :: w in words ==> IsWord(w)
    ensures forall c :: c in JoinWith(words, ' ') && IsSpace(c) ==> c == ' '
  {
    if words != [] {
      assert words[0] in words;
      JoinBlanks(words[1..]);
    }
  }

  lemma {:induction false} NonEmptyWords(words: seq<string>)
    requires forall w :: w in words ==> IsWord(w)
    ensures NonEmpty(words + [""]) == words
  {
    if words == [] {
      assert NonEmpty([""]) == [] + NonEmpty([""][1..]);
    } else {
      assert words[0] in words;
      NonEmptyWords(words[1..]);
      assert (words + [""])[0] == words[0] && (words + [""])[1..] == words[1..] + [""];
      assert words == [words[0]] + words[1..];
    }
  }

  lemma FieldsOfLine(words: seq<string>)
    requires words != [] && forall w :: w in words ==> IsWord(w)
    ensures Fields(Line(words)) == words
  {
    JoinBlanks(words);
    JoinOneMore(words);
    var s := JoinWith(words, ' ');
    assert Blank(Line(words)) == s + [' '] by {
      assert forall i :: 0 <= i < |s| ==> s[i] in s;
    }
    hide IsWord;
    forall x | x in words + [""] ensures ' ' !in x {
      if x != "" { WordsUnbroken(x); }
    }
    SplitUndoesJoin(words + [""], ' ');
    NonEmptyWords(words);
  }

  lemma WordsUnbroken(x: string)
    ensures IsWord(x) ==> ' ' !in x
  {}

  // ---------- a key in front of a query ----------

  lemma CharOf(s: string, sep: string, p: nat, q: nat)
    requires OccursAt(s, sep, p) && p <= q < p + |sep|
    ensures q < |s| && s[q] in sep
  {
    assert s[p..p + |sep|][q - p] == s[q];
  }

  lemma InLeft(x: string, rest: string, sep: string, p: nat)
    requires OccursAt(x + rest, sep, p) && p + |sep| <= |x|
    ensures OccursAt(x, sep, p)
  {
    assert (x + rest)[p..p + |sep|] == x[p..p + |sep|];
  }

  lemma InRight(head: string, y: string, sep: string, p: nat)
    requires OccursAt(head + y, sep, p) && p >= |head|
    ensures OccursAt(y, sep, p - |head|)
  {
    var q := p - |head|;
    assert (head + y)[p..p + |sep|] == y[q..q + |sep|];
  }

  /** An occurrence never spans a character that the separator lacks. */
  lemma OccursInPart(x: string, c: char, y: string, sep: string)
    requires sep != [] && c !in sep
    ensures Contains(x + [c] + y, sep) ==> Contains(x, sep) || Contains(y, sep)
  {
    var s := x + [c] + y;
    if Contains(s, sep) {
      var p := Find(s, sep).value;
      if p <= |x| < p + |sep| { CharOf(s, sep, p, |x|); }
      if p + |sep| <= |x| {
        assert s == x + ([c] + y);
        InLeft(x, [c] + y, sep, p);
      } else {
        InRight(x + [c], y, sep, p);
      }
    }
  }

  lemma {:induction false} NotInQuery(ps: seq<Pair>, word: string)
    requires ps != [] && PlainPairs(ps) && Plain(word) && word != [] && forall p :: p in ps ==> !EndsWith(p.key, word)
    ensures !Contains(Query(ps), word + "=")
  {
    assert ps[0] in ps;
    ArgumentField(ps[0], word);
    assert Arguments(ps)[1..] == Arguments(ps[1..]);
    if |ps| > 1 {
      NotInQuery(ps[1..], word);
      assert '&' !in word + "=";
      OccursInPart(Argument(ps[0]), '&', Query(ps[1..]), word + "=");
    }
  }

  lemma AfterKey(key: string, rest: string)
    requires key != [] && !Contains(rest, key)
    ensures Contains(key + rest, key) && SplitBy(key + rest, key) == ["", rest]
  {
    assert (key + rest)[0..|key|] == key;
    assert OccursAt(key + rest, key, 0);
    assert (key + rest)[|key|..] == rest && (key + rest)[..0] == "";
  }

  lemma {:induction false} FirstWord(pre: seq<string>, word: string, post: seq<string>, key: string)
    requires key != [] && Contains(word, key) && forall w :: w in pre ==> !Contains(w, key)
    ensures FirstAfter(pre + [word] + post, key) == Some(SplitBy(word, key)[1])
  {
    if pre != [] {
      FirstWord(pre[1..], word, post, key);
      assert (pre + [word] + post)[1..] == pre[1..] + [word] + post;
    } else {
      assert (pre + [word] + post)[0] == word;
    }
  }

  /** Placed anywhere on a kernel command line, behind words that do not have the key, the
      URL is found, and read back as above. */
  lemma CommandLineRoundTrip(pre: seq<string>, post: seq<string>, apiUri: string, pxe: bool, uuid: string, mac: string)
    requires IsBase(apiUri) && IsUuid(uuid) && IsHyphenMac(mac)
    requires (forall w :: w in pre ==> IsWord(w) && !Contains(w, CONFIG_URL)) && (forall w :: w in post ==> IsWord(w))
    ensures var line := Line(pre + [CONFIG_URL + BootUrl(apiUri, pxe, uuid, mac)] + post);
      FirstAfter(Fields(line), CONFIG_URL) == Some(BootUrl(apiUri, pxe, uuid, mac))
  {
    var url := BootUrl(apiUri, pxe, uuid, mac);
    var words := pre + [CONFIG_URL + url] + post;
    UrlIsWord(apiUri, pxe, uuid, mac);
    NoKeyInUrl(apiUri, pxe, uuid, mac);
    hide BootUrl, IsBase, IsUuid, IsHyphenMac, Contains, IsWord, Line, Fields;
    forall w | w in words ensures IsWord(w) {}
    FieldsOfLine(words);
    AfterKey(CONFIG_URL, url);
    FirstWord(pre, CONFIG_URL + url, post, CONFIG_URL);
  }

  lemma UrlIsWord(apiUri: string, pxe: bool, uuid: string, mac: string)
    requires IsBase(apiUri) && IsUuid(uuid) && IsHyphenMac(mac)
    ensures IsWord(CONFIG_URL + BootUrl(apiUri, pxe, uuid, mac))
  {
    IdsPlain(uuid, mac);
    TwoPairs(uuid, mac);
    PrintedIsNoSpace(CONFIG_URL);
    PrintedIsNoSpace(IGNITION_PXE);
    PrintedIsNoSpace(IGNITION);
    PrintedIsNoSpace("uuid=");
    PrintedIsNoSpace("&mac=");
    hide IsUuid, IsHyphenMac, Query, IsSpace;
    assert forall c :: c in "uuid=" + uuid + "&mac=" + mac ==> !IsSpace(c);
  }

  lemma NoKeyInUrl(apiUri: string, pxe: bool, uuid: string, mac: string)
    requires IsBase(apiUri) && IsUuid(uuid) && IsHyphenMac(mac)
    ensures !Contains(BootUrl(apiUri, pxe, uuid, mac), CONFIG_URL)
  {
    var ps := [Pair("uuid", uuid), Pair("mac", mac)];
    var head := apiUri + (if pxe then "/ignition-pxe" else "/ignition");
    IdsPlain(uuid, mac);
    assert BootUrl(apiUri, pxe, uuid, mac) == head + ['?'] + Query(ps);
    assert '=' !in head && PlainPairs(ps);
    hide IsUuid, IsHyphenMac, IsBase, BootUrl, Query, PlainPairs, Find;
    ConfigKey();
    assert forall p :: p in ps ==> !EndsWith(p.key, "coreos.config.url");
    NotInQuery(ps, "coreos.config.url");
    NotInside(head, CONFIG_URL);
    OccursInPart(head, '?', Query(ps), CONFIG_URL);
  }

  lemma ConfigKey()
    ensures "coreos.config.url" + "=" == CONFIG_URL && Plain("coreos.config.url") && '?' !in CONFIG_URL
    ensures CONFIG_URL[|CONFIG_URL| - 1] == '='
  {}

  // ---------- the metadata file ----------

  lemma {:induction false} QueryPlain(ps: seq<Pair>)
    requires PlainPairs(ps)
    ensures forall c :: c in Query(ps) ==> c != '\'' && !IsSpace(c)
  {
    if ps != [] {
      assert ps[0] in ps && Plain(ps[0].key) && Plain(ps[0].value);
      assert forall c :: c in Argument(ps[0]) ==> c in ps[0].key || c == '=' || c in ps[0].value;
      assert Arguments(ps)[1..] == Arguments(ps[1..]);
      QueryPlain(ps[1..]);
      assert Query(ps) == if |ps| == 1 then Argument(ps[0]) else Argument(ps[0]) + ['&'] + Query(ps[1..]);
    }
  }

  lemma Unquoted(query: string)
    requires '\'' !in query
    ensures Removed("'" + query + "'", "'") == query
  {
    var rest := query + "'";
    SplitOnce(query, "'", "");
    assert query + "'" + "" == rest;
    var s := "'" + query + "'";
    assert s == "'" + rest;
    assert s[0..1] == "'";
    assert OccursAt(s, "'", 0);
    assert s[1..] == rest && s[..0] == "";
  }

  /** The metadata file with any well formed query, quoted, between any other words, is
      read as that query. */
  lemma MetadataRoundTrip(pre: seq<string>, post: seq<string>, ps: seq<Pair>)
    requires ps != [] && PlainPairs(ps) && forall p :: p in ps ==> !EndsWith(p.key, "REQUEST_RAW_QUERY")
    requires (forall w :: w in pre ==> IsWord(w) && !Contains(w, RAW_QUERY)) && (forall w :: w in post ==> IsWord(w))
    ensures FromMetadata(Line(pre + [RAW_QUERY + "'" + Query(ps) + "'"] + post)) == Found(MetadataReads(ps))
  {
    var quoted := "'" + Query(ps) + "'";
    var word := RAW_QUERY + quoted;
    assert RAW_QUERY + "'" + Query(ps) + "'" == word;
    QueryPlain(ps);
    NoKeyInQuery(ps);
    Unquoted(Query(ps));
    MetadataReadsQuery(ps);
    hide Query, Contains, IsWord, Line, Fields, PlainPairs, MetadataReads, FromSelectors, Removed;
    var words := pre + [word] + post;
    assert IsWord(word) by { QuotedWord(Query(ps)); }
    forall w | w in words ensures IsWord(w) {}
    FieldsOfLine(words);
    AfterKey(RAW_QUERY, quoted);
    FirstWord(pre, word, post, RAW_QUERY);
  }

  lemma QuotedWord(query: string)
    requires forall c :: c in query ==> !IsSpace(c)
    ensures IsWord(RAW_QUERY + ("'" + query + "'"))
  {}

  lemma NoKeyInQuery(ps: seq<Pair>)
    requires ps != [] && PlainPairs(ps) && forall p :: p in ps ==> !EndsWith(p.key, "REQUEST_RAW_QUERY")
    ensures !Contains("'" + Query(ps) + "'", RAW_QUERY)
  {
    assert "REQUEST_RAW_QUERY" + "=" == RAW_QUERY;
    NotInQuery(ps, "REQUEST_RAW_QUERY");
    NotInside("", RAW_QUERY);
    OccursInPart(Query(ps), '\'', "", RAW_QUERY);
    assert "" + ['\''] + (Query(ps) + ['\''] + "") == "'" + Query(ps) + "'";
    OccursInPart("", '\'', Query(ps) + ['\''] + "", RAW_QUERY);
  }

  // ---------- raw queries as lock names ----------

  ghost predicate AreMachines(uuids: seq<string>, macs: seq<string>) {
    |uuids| == |macs| && Distinct(uuids) && forall i :: 0 <= i < |uuids| ==> IsUuid(uuids[i]) && IsHyphenMac(macs[i])
  }

  function RawQueries(uuids: seq<string>, macs: seq<string>): (r: seq<string>)
    requires |uuids| == |macs|
    ensures |r| == |uuids| && forall i :: 0 <= i < |uuids| ==> r[i] == Query([Pair("uuid", uuids[i]), Pair("mac", macs[i])])
  {
    seq(|uuids|, i requires 0 <= i < |uuids| => Query([Pair("uuid", uuids[i]), Pair("mac", macs[i])]))
  }

  /** The boot queries of machines with different uuids give every agent and every
      lifecycle script of the cluster a lock name of its own. */
  lemma BootQueriesAreApart(uuids: seq<string>, macs: seq<string>)
    requires AreMachines(uuids, macs)
    ensures Locksmith.Apart(Locksmith.Configured(RawQueries(uuids, macs)))
    ensures Locksmith.AlwaysExclusive(Locksmith.Configured(RawQueries(uuids, macs)))
  {
    var raw := RawQueries(uuids, macs);
    forall i | 0 <= i < |raw| ensures |raw[i]| == 63 && raw[i][5..41] == uuids[i] {
      TwoPairs(uuids[i], macs[i]);
    }
    hide Query, IsUuid, IsHyphenMac;
    Locksmith.ConfiguredApartIff(raw);
    Locksmith.ExclusiveIffApart(Locksmith.Configured(raw));
  }
}
