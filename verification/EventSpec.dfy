/** The textual event specs that drive a suspender, such as "wait 30s -> halt -> wait 1m -> resume". */
module EventSpec {
  import opened Prelude

  /** delay is a time.Duration; an entry is either a delay or an event. */
  datatype EventTiming = EventTiming(delay: int, event: string)

  // ---------- the string functions the parser calls ----------

  /** strings.Split for a non-empty separator. */
  function Split(s: string, sep: string): (fields: seq<string>)
    requires sep != ""
    ensures |fields| > 0
    decreases |s|
  {
    if s == "" then [""]
    else if sep <= s then [""] + Split(s[|sep|..], sep)
    else
      var rest := Split(s[1..], sep);
      [[s[0]] + rest[0]] + rest[1..]
  }

  /** unicode.IsSpace. */
  predicate IsSpace(c: char) {
    || c == ' ' || '\t' <= c <= '\r' || c == '\U{0085}' || c == '\U{00A0}' || c == '\U{1680}'
    || c == '\U{2028}' || c == '\U{2029}' || c == '\U{202F}' || c == '\U{205F}' || c == '\U{3000}'
    || '\U{2000}' <= c <= '\U{200A}'
  }

  /** Among the ASCII characters: tab, line feed, vertical tab, form feed, carriage return and blank. */
  lemma AsciiSpace(c: char)
    requires c as int < 128
    ensures IsSpace(c) <==> c as int in {0x09, 0x0A, 0x0B, 0x0C, 0x0D, 0x20}
  {}

  function TrimLeft(s: string): string {
    if s != "" && IsSpace(s[0]) then TrimLeft(s[1..]) else s
  }

  function TrimRight(s: string): string {
    if s != "" && IsSpace(s[|s| - 1]) then TrimRight(s[..|s| - 1]) else s
  }

  /** strings.TrimSpace. */
  function TrimSpace(s: string): string {
    TrimRight(TrimLeft(s))
  }

  /** sep occurs nowhere in s. */
  ghost predicate Free(s: string, sep: string) {
    forall i :: 0 <= i < |s| ==> !(sep <= s[i..])
  }

  lemma {:induction false} SplitNone(s: string, sep: string)
    requires sep != "" && Free(s, sep)
    ensures Split(s, sep) == [s]
  {
    if s != "" {
      assert s[0..] == s;
      forall i | 0 <= i < |s[1..]| ensures !(sep <= s[1..][i..]) {
        assert s[1..][i..] == s[i + 1..];
      }
      SplitNone(s[1..], sep);
      assert [s[0]] + s[1..] == s;
    }
  }

  lemma {:induction false} SplitSkips(c: char, s: string, sep: string)
    requires sep != "" && !(sep <= [c] + s)
    ensures var rest := Split(s, sep); Split([c] + s, sep) == [[c] + rest[0]] + rest[1..]
  {
    assert ([c] + s)[1..] == s;
  }

  /** A field that no earlier separator cuts is split off whole. */
  lemma {:induction false} SplitFirst(field: string, sep: string, rest: string)
    requires sep != "" && forall i :: 0 <= i < |field| ==> !(sep <= (field + sep)[i..])
    ensures Split(field + sep + rest, sep) == [field] + Split(rest, sep)
  {
    var s := field + sep + rest;
    if field == "" {
      assert s == sep + rest && s[|sep|..] == rest;
    } else {
      var tail := field[1..];
      assert s == [field[0]] + (tail + sep + rest);
      assert !(sep <= s) by {
        assert (field + sep)[0..] == field + sep;
        assert s[..|sep|] == (field + sep)[..|sep|];
      }
      forall i | 0 <= i < |tail| ensures !(sep <= (tail + sep)[i..]) {
        assert (tail + sep)[i..] == (field + sep)[i + 1..];
      }
      SplitFirst(tail, sep, rest);
      SplitSkips(field[0], tail + sep + rest, sep);
      assert [field[0]] + tail == field;
    }
  }

  // ---------- the parser ----------

  /** What one field contributes; parse stands for time.ParseDuration. */
  function ParseField(field: string, parse: string -> Option<int>): Option<EventTiming> {
    var words := Split(TrimSpace(field), " ");
    if words[0] == "wait" then
      if |words| != 2 then None
      else match parse(words[1])
        case None => None
        case Some(d) => Some(EventTiming(d, ""))
    else Some(EventTiming(0, words[0]))
  }

  /** The values that are there, in order. */
  function Keep<T>(xs: seq<Option<T>>): seq<T> {
    if xs == [] then []
    else
      var n := |xs| - 1;
      Keep(xs[..n]) + match xs[n] { case None => [] case Some(x) => [x] }
  }

  function ParseFields(fields: seq<string>, parse: string -> Option<int>): seq<Option<EventTiming>> {
    seq(|fields|, i requires 0 <= i < |fields| => ParseField(fields[i], parse))
  }

  function Parse(spec: string, parse: string -> Option<int>): seq<EventTiming> {
    Keep(ParseFields(Split(spec, "->"), parse))
  }

  method ParseEventSpec(spec: string, parse: string -> Option<int>) returns (out: seq<EventTiming>)
    ensures out == Parse(spec, parse)
  {
    var fields := Split(spec, "->");
    out := [];
    for i := 0 to |fields|
      invariant out == Keep(ParseFields(fields[..i], parse))
    {
      assert ParseFields(fields[..i + 1], parse)[..i] == ParseFields(fields[..i], parse);
      var f := TrimSpace(fields[i]);
      var words := Split(f, " ");
      if words[0] == "wait" {
        if |words| != 2 {
          continue;
        }
        match parse(words[1]) {
          case None => continue;
          case Some(d) => out := out + [EventTiming(d, "")];
        }
      } else {
        out := out + [EventTiming(0, words[0])];
      }
    }
    assert fields[..|fields|] == fields;
  }

  /** A wait without exactly one argument, or with one that is no duration. */
  predicate MalformedWait(field: string, parse: string -> Option<int>) {
    var words := Split(TrimSpace(field), " ");
    words[0] == "wait" && (|words| != 2 || parse(words[1]).None?)
  }

  /** source lists, in order, the places of xs that hold the values of ys, and all of them. */
  ghost predicate Follows<T>(xs: seq<Option<T>>, ys: seq<T>, source: seq<nat>) {
    && |source| == |ys|
    && (forall j :: 0 <= j < |source| ==> source[j] < |xs| && xs[source[j]] == Some(ys[j]))
    && (forall j, k :: 0 <= j < k < |source| ==> source[j] < source[k])
    && (forall i :: 0 <= i < |xs| ==> (i in source <==> xs[i].Some?))
  }

  lemma {:induction false} FollowsOneMore<T>(xs: seq<Option<T>>, ys: seq<T>, source: seq<nat>, x: Option<T>)
    requires Follows(xs, ys, source)
    ensures x.None? ==> Follows(xs + [x], ys, source)
    ensures x.Some? ==> Follows(xs + [x], ys + [x.value], source + [|xs|])
  {
    var longer := xs + [x];
    forall i | 0 <= i < |longer| ensures i in source + [|xs|] <==> i in source || i == |xs| {}
    assert |xs| !in source;
    assert forall i :: 0 <= i < |xs| ==> longer[i] == xs[i];
  }

  lemma {:induction false} KeepOneMore<T>(xs: seq<Option<T>>, x: Option<T>)
    ensures Keep(xs + [x]) == if x.None? then Keep(xs) else Keep(xs) + [x.value]
  {
    assert (xs + [x])[..|xs|] == xs;
  }

  lemma {:induction false} KeepFollowsOneMore<T>(xs: seq<Option<T>>, source: seq<nat>, x: Option<T>)
    requires Follows(xs, Keep(xs), source)
    ensures Follows(xs + [x], Keep(xs + [x]), source + if x.None? then [] else [|xs|])
  {
    FollowsOneMore(xs, Keep(xs), source, x);
    KeepOneMore(xs, x);
    assert source + [] == source;
  }

  lemma {:induction false} KeepFollows<T>(xs: seq<Option<T>>) returns (source: seq<nat>)
    ensures Follows(xs, Keep(xs), source)
  {
    source := [];
    if xs != [] {
      var n := |xs| - 1;
      var init, last := xs[..n], xs[n];
      source := KeepFollows(init);
      KeepFollowsOneMore(init, source, last);
      assert init + [last] == xs;
      source := source + if last.None? then [] else [n];
    }
  }

  /**
   For any input, the entries come from the fields in their order, one field each, and the only
   fields that leave no entry are malformed waits.
   */
  lemma EntriesFollowFields(spec: string, parse: string -> Option<int>) returns (source: seq<nat>)
    ensures var fields := Split(spec, "->");
      && |source| == |Parse(spec, parse)|
      && (forall j :: 0 <= j < |source| ==>
            source[j] < |fields| && ParseField(fields[source[j]], parse) == Some(Parse(spec, parse)[j]))
      && (forall j, k :: 0 <= j < k < |source| ==> source[j] < source[k])
      && (forall i :: 0 <= i < |fields| ==> (i in source <==> !MalformedWait(fields[i], parse)))
  {
    var fields := Split(spec, "->");
    source := KeepFollows(ParseFields(fields, parse));
    forall i | 0 <= i < |fields| ensures ParseFields(fields, parse)[i].Some? <==> !MalformedWait(fields[i], parse) {
      OnlyMalformedWaitsDrop(fields[i], parse);
    }
  }

  lemma OnlyMalformedWaitsDrop(field: string, parse: string -> Option<int>)
    ensures ParseField(field, parse).None? <==> MalformedWait(field, parse)
  {}

  // ---------- the printer ----------

  /** Not empty, without a blank or an arrow in it, without a space character at either end. */
  ghost predicate Word(s: string) {
    && s != "" && Free(s, "->") && Free(s, " ")
    && !IsSpace(s[0]) && !IsSpace(s[|s| - 1])
  }

  /** show stands for time.Duration.String. */
  function PrintEntry(e: EventTiming, show: int -> string): string {
    if e.event == "" then "wait " + show(e.delay) else e.event
  }

  function Print(entries: seq<EventTiming>, show: int -> string): string {
    if entries == [] then ""
    else if |entries| == 1 then PrintEntry(entries[0], show)
    else PrintEntry(entries[0], show) + " -> " + Print(entries[1..], show)
  }

  /** The duration prints as a word that parses back. */
  ghost predicate PrintsBack(delay: int, show: int -> string, parse: string -> Option<int>) {
    Word(show(delay)) && parse(show(delay)) == Some(delay)
  }

  /** An event that survives printing: a word other than wait, with no delay of its own. */
  ghost predicate Survives(e: EventTiming) {
    e.delay == 0 && e.event != "wait" && Word(e.event)
  }

  // ---------- fields of a printed list ----------

  /** x, perhaps with a blank on either side, as it comes out of the split. */
  ghost predicate Padded(field: string, x: string) {
    field == x || field == " " + x || field == x + " " || field == " " + x + " "
  }

  lemma {:induction false} TrimPadded(field: string, x: string)
    requires Padded(field, x) && x != "" && !IsSpace(x[0])
    ensures TrimSpace(field) == TrimRight(x)
  {
    var inner := if field[0] == ' ' then field[1..] else field;
    assert inner == x || inner == x + " ";
    assert TrimLeft(inner) == inner;
    assert TrimLeft(field) == inner;
    assert (x + " ")[..|x|] == x;
  }

  lemma {:induction false} TrimRightShortens(s: string)
    ensures TrimRight(s) <= s
    ensures s != "" && IsSpace(s[|s| - 1]) ==> TrimRight(s) != s
  {
    if s != "" && IsSpace(s[|s| - 1]) {
      TrimRightShortens(s[..|s| - 1]);
    }
  }

  lemma {:induction false} WaitParses(d: int, field: string, show: int -> string, parse: string -> Option<int>)
    requires PrintsBack(d, show, parse) && Padded(field, "wait " + show(d))
    ensures ParseField(field, parse) == Some(EventTiming(d, ""))
  {
    var w := show(d);
    var x := "wait " + w;
    assert x[0] == 'w' && x[|x| - 1] == w[|w| - 1];
    TrimPadded(field, x);
    assert x == "wait" + " " + w;
    forall i | 0 <= i < |"wait"| ensures !(" " <= ("wait" + " ")[i..]) {
      assert ("wait" + " ")[i..][0] != ' ';
    }
    SplitFirst("wait", " ", w);
    SplitNone(w, " ");
  }

  /** What every event that comes out of the parser looks like: it may still end in a space. */
  ghost predicate Emitted(e: EventTiming) {
    && e.delay == 0 && e.event != "" && e.event != "wait"
    && Free(e.event, "->") && Free(e.event, " ") && !IsSpace(e.event[0])
  }

  lemma {:induction false} EventParsesIff(e: EventTiming, field: string, parse: string -> Option<int>)
    requires Emitted(e) && Padded(field, e.event)
    ensures ParseField(field, parse) == Some(e) <==> Survives(e)
  {
    var w := TrimRight(e.event);
    TrimPadded(field, e.event);
    TrimRightShortens(e.event);
    FreePrefix(e.event, w, " ");
    OneWord(field, w, parse);
  }

  lemma {:induction false} OneWord(field: string, w: string, parse: string -> Option<int>)
    requires TrimSpace(field) == w && Free(w, " ")
    ensures ParseField(field, parse) == if w == "wait" then None else Some(EventTiming(0, w))
  {
    SplitNone(w, " ");
  }

  lemma FreePrefix(s: string, t: string, sep: string)
    requires t <= s && Free(s, sep)
    ensures Free(t, sep)
  {
    forall i | 0 <= i < |t| ensures !(sep <= t[i..]) {
      assert t[i..] <= s[i..];
    }
  }

  lemma FreeSuffix(s: string, k: nat, sep: string)
    requires k <= |s| && Free(s, sep)
    ensures Free(s[k..], sep)
  {
    forall i | 0 <= i < |s[k..]| ensures !(sep <= s[k..][i..]) {
      assert s[k..][i..] == s[k + i..];
    }
  }

  // ---------- the grammar of a field ----------

  predicate AllSpace(s: string) {
    forall c :: c in s ==> IsSpace(c)
  }

  lemma {:induction false} TrimLeftAround(before: string, rest: string)
    requires AllSpace(before) && (rest != "" ==> !IsSpace(rest[0]))
    ensures TrimLeft(before + rest) == rest
  {
    if before == "" {
      assert before + rest == rest;
    } else {
      assert before[0] in before && (before + rest)[1..] == before[1..] + rest;
      TrimLeftAround(before[1..], rest);
    }
  }

  lemma {:induction false} TrimRightAround(rest: string, after: string)
    requires AllSpace(after) && (rest != "" ==> !IsSpace(rest[|rest| - 1]))
    ensures TrimRight(rest + after) == rest
  {
    if after == "" {
      assert rest + after == rest;
    } else {
      var n := |after| - 1;
      assert after[n] in after && (rest + after)[..|rest| + n] == rest + after[..n];
      TrimRightAround(rest, after[..n]);
    }
  }

  /** What is trimmed is space, and nothing but space is trimmed. */
  lemma {:induction false} TrimAround(before: string, t: string, after: string)
    requires AllSpace(before) && AllSpace(after)
    requires t != "" ==> !IsSpace(t[0]) && !IsSpace(t[|t| - 1])
    ensures TrimSpace(before + t + after) == t
  {
    if t == "" {
      var all := before + after;
      assert before + t + after == all && all + "" == all;
      TrimLeftAround(all, "");
    } else {
      assert before + t + after == before + (t + after);
      TrimLeftAround(before, t + after);
      TrimRightAround(t, after);
    }
  }

  lemma {:induction false} BlankCutsFirst(w: string, more: string)
    requires Free(w, " ")
    ensures Split(w, " ") == [w]
    ensures Split(w + " " + more, " ") == [w] + Split(more, " ")
  {
    SplitNone(w, " ");
    forall i | 0 <= i < |w| ensures !(" " <= (w + " ")[i..]) {
      assert (w + " ")[i..][0] == w[i..][0];
      assert w[i..][..1] == [w[i]];
    }
    SplitFirst(w, " ", more);
  }

  /** t is the field without the space around it. */
  ghost predicate Trims(field: string, t: string) {
    && (t != "" ==> !IsSpace(t[0]) && !IsSpace(t[|t| - 1]))
    && exists before, after :: AllSpace(before) && AllSpace(after) && field == before + t + after
  }

  /** A field that does not begin with the word wait is an event, named by its first word. */
  lemma {:induction false} EventField(field: string, t: string, w: string, more: string, parse: string -> Option<int>)
    requires Trims(field, t) && (t == w || t == w + " " + more)
    requires Free(w, " ") && w != "wait"
    ensures ParseField(field, parse) == Some(EventTiming(0, w))
  {
    var before, after :| AllSpace(before) && AllSpace(after) && field == before + t + after;
    TrimAround(before, t, after);
    BlankCutsFirst(w, more);
  }

  /** The word wait takes exactly one argument, which has to be a duration. */
  lemma {:induction false} WaitField(field: string, d: string, parse: string -> Option<int>)
    requires Trims(field, "wait " + d) && Free(d, " ")
    ensures ParseField(field, parse) == match parse(d) { case None => None case Some(v) => Some(EventTiming(v, "")) }
  {
    var t := "wait " + d;
    var before, after :| AllSpace(before) && AllSpace(after) && field == before + t + after;
    TrimAround(before, t, after);
    FreeOfBlank("wait");
    BlankCutsFirst("wait", d);
    BlankCutsFirst(d, "");
    assert "wait" + " " + d == t;
  }

  lemma {:induction false} WaitFieldAlone(field: string, parse: string -> Option<int>)
    requires Trims(field, "wait")
    ensures ParseField(field, parse) == None
  {
    var before, after :| AllSpace(before) && AllSpace(after) && field == before + "wait" + after;
    TrimAround(before, "wait", after);
    FreeOfBlank("wait");
    BlankCutsFirst("wait", "");
  }

  lemma {:induction false} WaitFieldWithMore(field: string, d: string, more: string, parse: string -> Option<int>)
    requires Free(d, " ") && Trims(field, "wait " + (d + " " + more))
    ensures ParseField(field, parse) == None
  {
    var rest := d + " " + more;
    var t := "wait " + rest;
    var before, after :| AllSpace(before) && AllSpace(after) && field == before + t + after;
    TrimAround(before, t, after);
    FreeOfBlank("wait");
    assert "wait" + " " + rest == t;
    BlankCutsFirst("wait", rest);
    BlankCutsFirst(d, more);
  }

  lemma FreeOfBlank(w: string)
    requires ' ' !in w
    ensures Free(w, " ")
  {
    forall i | 0 <= i < |w| ensures !(" " <= w[i..]) {
      assert w[i..][0] == w[i] && w[i] in w;
    }
  }

  lemma FreeOfArrow(w: string)
    requires '-' !in w
    ensures Free(w, "->")
  {
    forall i | 0 <= i < |w| ensures !("->" <= w[i..]) {
      assert w[i..][0] == w[i] && w[i] in w;
    }
  }

  /** The pieces with the separator between them. */
  function Join(pieces: seq<string>, sep: string): string
    requires pieces != []
  {
    if |pieces| == 1 then pieces[0] else pieces[0] + sep + Join(pieces[1..], sep)
  }

  /** Splitting loses nothing, and leaves no separator in a piece. */
  lemma {:induction false} SplitJoins(s: string, sep: string)
    requires sep != ""
    ensures Join(Split(s, sep), sep) == s
    ensures forall k :: 0 <= k < |Split(s, sep)| ==> Free(Split(s, sep)[k], sep)
    decreases |s|
  {
    var pieces := Split(s, sep);
    forall k | 0 <= k < |pieces| ensures Free(pieces[k], sep) {
      PiecesAreFree(s, sep, k);
    }
    if s != "" && sep <= s {
      SplitJoins(s[|sep|..], sep);
      assert pieces[1..] == Split(s[|sep|..], sep);
      assert s == sep + s[|sep|..];
      assert "" + sep == sep;
    } else if s != "" {
      SplitJoins(s[1..], sep);
      var rest := Split(s[1..], sep);
      assert pieces == [[s[0]] + rest[0]] + rest[1..];
      JoinHead(s[0], rest, sep);
      assert s == [s[0]] + s[1..];
    }
  }

  lemma {:induction false} JoinHead(c: char, rest: seq<string>, sep: string)
    requires rest != []
    ensures Join([[c] + rest[0]] + rest[1..], sep) == [c] + Join(rest, sep)
  {
    var pieces := [[c] + rest[0]] + rest[1..];
    assert pieces[1..] == rest[1..];
    if |rest| > 1 {
      assert [c] + (rest[0] + sep + Join(rest[1..], sep)) == [c] + rest[0] + sep + Join(rest[1..], sep);
    }
  }

  // ---------- what the parser emits ----------

  /** The first piece of a split is a prefix that the separator does not occur in. */
  lemma {:induction false} FirstPiece(s: string, sep: string)
    requires sep != ""
    ensures Split(s, sep)[0] <= s && Free(Split(s, sep)[0], sep)
  {
    if s != "" && !(sep <= s) {
      FirstPiece(s[1..], sep);
      var piece, rest := Split(s, sep)[0], Split(s[1..], sep)[0];
      assert piece == [s[0]] + rest && s == [s[0]] + s[1..];
      forall i | 0 <= i < |piece| ensures !(sep <= piece[i..]) {
        if i > 0 { assert piece[i..] == rest[i - 1..]; }
      }
    }
  }

  lemma {:induction false} PiecesAreFree(s: string, sep: string, k: nat)
    requires sep != "" && k < |Split(s, sep)|
    ensures Free(Split(s, sep)[k], sep)
    decreases |s|
  {
    if k == 0 {
      FirstPiece(s, sep);
    } else if sep <= s {
      PiecesAreFree(s[|sep|..], sep, k - 1);
    } else {
      PiecesAreFree(s[1..], sep, k);
    }
  }

  lemma {:induction false} TrimLeftCuts(s: string) returns (k: nat)
    ensures k <= |s| && TrimLeft(s) == s[k..]
    ensures TrimLeft(s) != "" ==> !IsSpace(TrimLeft(s)[0])
  {
    k := 0;
    if s != "" && IsSpace(s[0]) {
      k := TrimLeftCuts(s[1..]);
      k := k + 1;
    }
  }

  lemma {:induction false} FieldEmits(field: string, e: EventTiming, parse: string -> Option<int>)
    requires Free(field, "->") && ParseField(field, parse) == Some(e) && e.event != ""
    ensures Emitted(e)
  {
    var k := TrimLeftCuts(field);
    FreeSuffix(field, k, "->");
    TrimRightShortens(TrimLeft(field));
    FirstPiece(TrimSpace(field), " ");
    assert e.event <= TrimSpace(field) <= TrimLeft(field);
    FreePrefix(TrimLeft(field), e.event, "->");
  }

  lemma {:induction false} ParserEmits(spec: string, parse: string -> Option<int>)
    ensures forall e :: e in Parse(spec, parse) && e.event != "" ==> Emitted(e)
  {
    var fields := Split(spec, "->");
    var source := KeepFollows(ParseFields(fields, parse));
    forall e | e in Parse(spec, parse) && e.event != "" ensures Emitted(e) {
      var j :| 0 <= j < |Parse(spec, parse)| && Parse(spec, parse)[j] == e;
      PiecesAreFree(spec, "->", source[j]);
      FieldEmits(fields[source[j]], e, parse);
    }
  }

  // ---------- splitting a printed list ----------

  lemma ArrowAt(s: string, i: nat)
    requires i < |s|
    ensures "->" <= s[i..] <==> s[i] == '-' && i + 1 < |s| && s[i + 1] == '>'
  {
    if i + 1 < |s| { assert s[i..][..2] == [s[i], s[i + 1]]; }
  }

  lemma PrefixAddsNoArrow(before: string, w: string)
    requires Free(w, "->") && '-' !in before
    ensures Free(before + w, "->")
  {
    var k := |before|;
    forall i | 0 <= i < k + |w| ensures !("->" <= (before + w)[i..]) {
      ArrowAt(before + w, i);
      if i >= k {
        ArrowAt(w, i - k);
      } else {
        assert before[i] in before;
      }
    }
  }

  lemma BlankAddsNoArrow(w: string)
    requires Free(w, "->")
    ensures Free(w + " ", "->")
  {
    forall i | 0 <= i < |w| + 1 ensures !("->" <= (w + " ")[i..]) {
      ArrowAt(w + " ", i);
      if i < |w| { ArrowAt(w, i); }
    }
  }

  lemma ArrowCutsFirst(field: string, rest: string)
    requires Free(field, "->")
    ensures Split(field + "->" + rest, "->") == [field] + Split(rest, "->")
  {
    forall i | 0 <= i < |field| ensures !("->" <= (field + "->")[i..]) {
      ArrowAt(field + "->", i);
      ArrowAt(field, i);
    }
    SplitFirst(field, "->", rest);
  }

  function Listed<T>(x: Option<T>): seq<T> {
    match x case None => [] case Some(v) => [v]
  }

  lemma {:induction false} KeepHead<T>(x: Option<T>, xs: seq<Option<T>>)
    ensures Keep([x] + xs) == Listed(x) + Keep(xs)
  {
    var all := [x] + xs;
    if xs == [] {
      assert all[..0] == [];
    } else {
      var n := |xs| - 1;
      KeepHead(x, xs[..n]);
      assert all[..|all| - 1] == [x] + xs[..n];
    }
  }

  lemma {:induction false} LastField(field: string, parse: string -> Option<int>)
    requires Free(field, "->")
    ensures Parse(field, parse) == Listed(ParseField(field, parse))
  {
    SplitNone(field, "->");
    assert ParseFields([field], parse) == [ParseField(field, parse)] + [];
    KeepHead(ParseField(field, parse), []);
  }

  lemma {:induction false} FirstField(field: string, rest: string, parse: string -> Option<int>)
    requires Free(field, "->")
    ensures Parse(field + "->" + rest, parse) == Listed(ParseField(field, parse)) + Parse(rest, parse)
  {
    ArrowCutsFirst(field, rest);
    var fields := Split(rest, "->");
    assert ParseFields([field] + fields, parse) == [ParseField(field, parse)] + ParseFields(fields, parse);
    KeepHead(ParseField(field, parse), ParseFields(fields, parse));
  }

  /** The wait prints well, or the event is as the parser emits them. */
  ghost predicate Cuttable(e: EventTiming, show: int -> string, parse: string -> Option<int>) {
    if e.event == "" then PrintsBack(e.delay, show, parse) else Emitted(e)
  }

  lemma {:induction false} FieldParsesIff(
    e: EventTiming, field: string, show: int -> string, parse: string -> Option<int>)
    requires Cuttable(e, show, parse) && Padded(field, PrintEntry(e, show))
    ensures ParseField(field, parse) == Some(e) <==> (e.event != "" ==> Survives(e))
  {
    if e.event == "" {
      WaitParses(e.delay, field, show, parse);
    } else {
      EventParsesIff(e, field, parse);
    }
  }

  /** What the printed entry is split into: lead is the blank that an arrow before it leaves at its head. */
  lemma {:induction false} EntryIsCut(
    lead: string, e: EventTiming, show: int -> string, parse: string -> Option<int>)
    requires Cuttable(e, show, parse) && (lead == "" || lead == " ")
    ensures var field := lead + PrintEntry(e, show);
      && Padded(field, PrintEntry(e, show)) && Padded(field + " ", PrintEntry(e, show))
      && Free(field, "->") && Free(field + " ", "->")
  {
    var x := PrintEntry(e, show);
    if e.event == "" { PrefixAddsNoArrow("wait ", show(e.delay)); }
    PrefixAddsNoArrow(lead, x);
    BlankAddsNoArrow(lead + x);
    assert "" + x == x;
  }

  lemma ArrowSpaced(lead: string, x: string, rest: string)
    ensures lead + (x + " -> " + rest) == lead + x + " " + "->" + (" " + rest)
  {}

  /** No field yields more than one entry, so that a list comes back only if each of its fields does. */
  lemma {:induction false} HeadAndRest(
    x: Option<EventTiming>, e: EventTiming, parsed: seq<EventTiming>, rest: seq<EventTiming>)
    requires |parsed| <= |rest|
    ensures |Listed(x) + parsed| <= 1 + |rest|
    ensures Listed(x) + parsed == [e] + rest <==> x == Some(e) && parsed == rest
  {
    if Listed(x) + parsed == [e] + rest {
      assert |Listed(x)| == 1;
      assert (Listed(x) + parsed)[0] == e && (Listed(x) + parsed)[1..] == parsed && ([e] + rest)[1..] == rest;
    }
  }

  lemma {:induction false} PrintedListParsesIff(
    lead: string, entries: seq<EventTiming>, show: int -> string, parse: string -> Option<int>)
    requires entries != [] && (lead == "" || lead == " ")
    requires forall e :: e in entries ==> Cuttable(e, show, parse)
    ensures var parsed := Parse(lead + Print(entries, show), parse);
      && |parsed| <= |entries|
      && (parsed == entries <==> forall e :: e in entries && e.event != "" ==> Survives(e))
    decreases |entries|
  {
    var e, rest := entries[0], entries[1..];
    assert e in entries && entries == [e] + rest;
    var field := lead + PrintEntry(e, show);
    EntryIsCut(lead, e, show, parse);
    if rest == [] {
      FieldParsesIff(e, field, show, parse);
      LastField(field, parse);
      HeadAndRest(ParseField(field, parse), e, [], []);
    } else {
      var tail := " " + Print(rest, show);
      FieldParsesIff(e, field + " ", show, parse);
      FirstField(field + " ", tail, parse);
      ArrowSpaced(lead, PrintEntry(e, show), Print(rest, show));
      PrintedListParsesIff(" ", rest, show, parse);
      HeadAndRest(ParseField(field + " ", parse), e, Parse(tail, parse), rest);
    }
  }

  lemma {:induction false} EmptyListParses(parse: string -> Option<int>)
    ensures Parse("", parse) == [EventTiming(0, "")]
  {
    assert TrimSpace("") == "" && Split("", " ") == [""];
    LastField("", parse);
  }

  /**
   Where durations print as words that parse back, the parser inverts the printer on exactly the
   lists that are not empty and whose events are words other than wait, without a delay.  The empty
   list prints as the empty spec, which parses to a single empty entry.
   */
  lemma {:induction false} RoundTrip(entries: seq<EventTiming>, show: int -> string, parse: string -> Option<int>)
    requires forall e :: e in entries && e.event == "" ==> PrintsBack(e.delay, show, parse)
    ensures Parse(Print(entries, show), parse) == entries
      <==> entries != [] && forall e :: e in entries && e.event != "" ==> Survives(e)
  {
    if entries == [] {
      EmptyListParses(parse);
    } else if forall e :: e in entries ==> Cuttable(e, show, parse) {
      PrintedListParsesIff("", entries, show, parse);
      assert "" + Print(entries, show) == Print(entries, show);
    } else {
      ParserEmits(Print(entries, show), parse);
    }
  }
}
