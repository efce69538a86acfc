/**
 * The gateway's answer to a service check is line-oriented text of
 * `key:value` records. `parseSSOResponseToArray` turns it into an attribute
 * map; malformed lines are dropped, never fatal. The two revisions of the
 * library differ only in the key pattern: `[a-z_]+` in the namespaced
 * `SSO` class, `[a-z]+` in the older global one.
 */
module Response {
  import opened Common
  import opened Php
  import opened Attributes

  /** The key pattern of a revision. */
  datatype KeyPattern = LowerAndUnderscore | LowerOnly

  predicate IsKeyChar(p: KeyPattern, c: char) {
    'a' <= c <= 'z' || (p == LowerAndUnderscore && c == '_')
  }

  /** A non-empty run of key chars: what `^[a-z_]+$` (or `^[a-z]+$`) accepts in a line without `\n`. */
  predicate IsKey(p: KeyPattern, k: string) {
    |k| > 0 && forall i :: 0 <= i < |k| ==> IsKeyChar(p, k[i])
  }

  /**
   * `preg_match('/^[a-z_]+$/', k)`: PCRE's `$` also matches just before a
   * final `\n`, so a key followed by one newline is accepted as well.
   */
  predicate KeyMatches(p: KeyPattern, k: string) {
    IsKey(p, k) || (|k| >= 2 && k[|k| - 1] == '\n' && IsKey(p, k[..|k| - 1]))
  }

  /** In a line without `\n` the pattern accepts exactly the non-empty runs of key chars. */
  lemma KeyMatchesWithoutNewline(p: KeyPattern, k: string)
    requires '\n' !in k
    ensures KeyMatches(p, k) <==> IsKey(p, k)
  {
    if |k| >= 2 {
      assert k[|k| - 1] in k;
    }
  }

  /**
   * One record: trimmed, skipped when blank, split at its first `:` (skipped
   * when there is none), skipped when the key does not match the pattern;
   * otherwise the key and the entire remainder as the value.
   */
  function ParseLine(p: KeyPattern, line: string): (r: Option<(string, string)>)
    ensures r.Some? ==> Trim(line) == r.value.0 + [':'] + r.value.1 && ':' !in r.value.0
    ensures r.Some? && '\n' !in line ==> IsKey(p, r.value.0)
    ensures Trim(line) == "" || ':' !in Trim(line) ==> r.None?
  {
    var record := Trim(line);
    if record == "" then None
    else
      match SplitFirst(record, ':')
      case None => None
      case Some(kv) =>
        if KeyMatches(p, kv.0) then
          KeyInLine(p, line, kv.0, kv.1);
          Some(kv)
        else None
  }

  /** A matching key cut from the trim of a line without `\n` is a run of key chars. */
  lemma KeyInLine(p: KeyPattern, line: string, key: string, value: string)
    requires Trim(line) == key + [':'] + value && KeyMatches(p, key)
    ensures '\n' !in line ==> IsKey(p, key)
  {
    if '\n' !in line {
      if '\n' in key {
        var i :| 0 <= i < |key| && key[i] == '\n';
        assert Trim(line)[i] == '\n';
        TrimKeepsChars(line, '\n');
      }
      KeyMatchesWithoutNewline(p, key);
    }
  }

  /** The accepted records of a list of lines, in order. */
  function Pairs(p: KeyPattern, lines: seq<string>): (ps: seq<(string, string)>)
    ensures |ps| <= |lines|
    ensures (forall i :: 0 <= i < |lines| ==> '\n' !in lines[i]) ==> forall j :: 0 <= j < |ps| ==> IsKey(p, ps[j].0)
    decreases |lines|
  {
    if lines == [] then []
    else
      var init := Pairs(p, lines[..|lines| - 1]);
      match ParseLine(p, lines[|lines| - 1])
      case None => init
      case Some(kv) => init + [kv]
  }

  /** Folds the pairs into a map, appending each value to its key's list: `$data[$key][] = $value`. */
  function Collect(ps: seq<(string, string)>): (m: AttrMap)
    ensures forall k :: k in m ==> m[k] != []
    decreases |ps|
  {
    if ps == [] then map[]
    else
      var m := Collect(ps[..|ps| - 1]);
      var kv := ps[|ps| - 1];
      m[kv.0 := Values(m, kv.0) + [kv.1]]
  }

  /** Every key of the map is the key of some pair. */
  lemma {:induction false} CollectKeys(ps: seq<(string, string)>, k: string)
    requires k in Collect(ps)
    ensures exists j :: 0 <= j < |ps| && ps[j].0 == k
    decreases |ps|
  {
    if ps[|ps| - 1].0 != k {
      CollectKeys(ps[..|ps| - 1], k);
      var j :| 0 <= j < |ps| - 1 && ps[..|ps| - 1][j].0 == k;
      assert ps[j].0 == k;
    }
  }

  /** Reference definition: the values of the pairs with key `k`, in input order. */
  function ValuesOf(ps: seq<(string, string)>, k: string): seq<string>
    decreases |ps|
  {
    if ps == [] then []
    else ValuesOf(ps[..|ps| - 1], k) + (if ps[|ps| - 1].0 == k then [ps[|ps| - 1].1] else [])
  }

  /** The map holds, for every key, exactly its values in input order. */
  lemma {:induction false} CollectValues(ps: seq<(string, string)>, k: string)
    ensures Values(Collect(ps), k) == ValuesOf(ps, k)
    decreases |ps|
  {
    if ps != [] {
      CollectValues(ps[..|ps| - 1], k);
    }
  }

  lemma {:induction false} ValuesOfAppend(a: seq<(string, string)>, b: seq<(string, string)>, k: string)
    ensures ValuesOf(a + b, k) == ValuesOf(a, k) + ValuesOf(b, k)
    decreases |b|
  {
    if b == [] {
      assert a + b == a;
    } else {
      assert (a + b)[..|a + b| - 1] == a + b[..|b| - 1];
      ValuesOfAppend(a, b[..|b| - 1], k);
    }
  }

  lemma {:induction false} PairsAppend(p: KeyPattern, a: seq<string>, b: seq<string>)
    ensures Pairs(p, a + b) == Pairs(p, a) + Pairs(p, b)
    decreases |b|
  {
    if b == [] {
      assert a + b == a;
    } else {
      assert (a + b)[..|a + b| - 1] == a + b[..|b| - 1];
      PairsAppend(p, a, b[..|b| - 1]);
    }
  }

  /**
   * The attribute map of a response text: every line of `explode("\n", text)`
   * through `ParseLine`, the accepted pairs folded by `Collect`.
   */
  function ResponseData(p: KeyPattern, text: string): (m: AttrMap)
    ensures forall k :: k in m ==> IsKey(p, k) && m[k] != []
  {
    var ps := Pairs(p, Explode('\n', text));
    assert forall k :: k in Collect(ps) ==> IsKey(p, k) by {
      forall k | k in Collect(ps) ensures IsKey(p, k) {
        CollectKeys(ps, k);
      }
    }
    Collect(ps)
  }

  /** The per-key lists of two maps, one after the other. */
  function Merge(a: AttrMap, b: AttrMap): (m: AttrMap)
    ensures m.Keys == a.Keys + b.Keys
  {
    map k | k in a.Keys + b.Keys :: Values(a, k) + Values(b, k)
  }

  /** The values of key `k` in a response, in input order. */
  lemma ResponseValues(p: KeyPattern, text: string, k: string)
    ensures Values(ResponseData(p, text), k) == ValuesOf(Pairs(p, Explode('\n', text)), k)
  {
    CollectValues(Pairs(p, Explode('\n', text)), k);
  }

  /** Two maps whose lists are never empty are equal when they give every key the same values. */
  lemma SameValues(m: AttrMap, n: AttrMap)
    requires forall k :: k in m ==> m[k] != []
    requires forall k :: k in n ==> n[k] != []
    requires forall k :: Values(m, k) == Values(n, k)
    ensures m == n
  {
    forall k | k in m ensures k in n {
      assert Values(m, k) != [];
    }
    forall k | k in n ensures k in m && m[k] == n[k] {
      assert Values(n, k) != [];
    }
  }

  lemma ConcatValues(p: KeyPattern, a: string, b: string, k: string)
    ensures Values(ResponseData(p, a + "\n" + b), k) == Values(ResponseData(p, a), k) + Values(ResponseData(p, b), k)
  {
    var la, lb := Explode('\n', a), Explode('\n', b);
    var pa, pb := Pairs(p, la), Pairs(p, lb);
    assert Pairs(p, Explode('\n', a + "\n" + b)) == pa + pb by {
      ExplodeConcat('\n', a, b);
      PairsAppend(p, la, lb);
    }
    CollectValues(pa + pb, k);
    CollectValues(pa, k);
    CollectValues(pb, k);
    ValuesOfAppend(pa, pb, k);
  }

  /**
   * Repeated keys accumulate in input order: the response `a + "\n" + b`
   * gives, for every key, the values of `a` followed by the values of `b`.
   */
  lemma ResponseConcat(p: KeyPattern, a: string, b: string)
    ensures ResponseData(p, a + "\n" + b) == Merge(ResponseData(p, a), ResponseData(p, b))
  {
    var ma, mb := ResponseData(p, a), ResponseData(p, b);
    var n := Merge(ma, mb);
    forall k ensures Values(ResponseData(p, a + "\n" + b), k) == Values(n, k) {
      ConcatValues(p, a, b, k);
    }
    forall k | k in n ensures n[k] != [] {
      assert k in ma || k in mb;
    }
    SameValues(ResponseData(p, a + "\n" + b), n);
  }

  /** A line that is blank once trimmed, or holds no `:`, adds nothing to the response before it. */
  lemma SkippedLine(p: KeyPattern, a: string, line: string)
    requires '\n' !in line
    requires Trim(line) == "" || ':' !in line
    ensures ResponseData(p, a + "\n" + line) == ResponseData(p, a)
  {
    ExplodeConcat('\n', a, line);
    ExplodeWithoutSeparator('\n', line);
    if ':' in Trim(line) {
      TrimKeepsChars(line, ':');
    }
    assert (Explode('\n', a) + [line])[..|Explode('\n', a)|] == Explode('\n', a);
  }

  /** A response of one line without `\n` holds just that line's record, if it is accepted. */
  lemma SingleLine(p: KeyPattern, line: string)
    requires '\n' !in line
    ensures ResponseData(p, line) == Include(map[], ParseLine(p, line))
  {
    ExplodeWithoutSeparator('\n', line);
    assert [line][..0] == [];
    match ParseLine(p, line)
    case None =>
    case Some(kv) =>
      assert Pairs(p, [line]) == [kv];
      assert [kv][..0] == [];
      assert Collect([kv]) == Include(map[], Some(kv));
      assert ResponseData(p, line) == Collect(Pairs(p, [line]));
  }

  /**
   * A record is split at its first `:`: the key is the text before it and
   * the value is all the rest, later colons included.
   */
  lemma ParseLineSplitsAtFirstColon(p: KeyPattern, key: string, value: string)
    requires IsKey(p, key)
    requires value == [] || !IsTrimChar(value[|value| - 1])
    ensures ParseLine(p, key + ":" + value) == Some((key, value))
  {
    var line := key + ":" + value;
    assert ':' !in key;
    assert !IsTrimChar(line[0]) by {
      assert line[0] == key[0] && IsKeyChar(p, key[0]);
    }
    assert line == [] || !IsTrimChar(line[|line| - 1]);
    TrimUnchanged(line);
    SplitFirstAt(line, ':', key, value);
  }

  /**
   * A line is kept exactly as its trimmed text reads: when that text is a
   * key the pattern matches, `:` and a value, the record is that key and
   * that value.
   */
  lemma ParseLineKeeps(p: KeyPattern, line: string, key: string, value: string)
    requires Trim(line) == key + [':'] + value && ':' !in key && KeyMatches(p, key)
    ensures ParseLine(p, line) == Some((key, value))
  {
    SplitFirstAt(Trim(line), ':', key, value);
  }

  /**
   * Whitespace around a record, such as the `\r` of a CRLF line end or
   * leading blanks, is trimmed away before the split.
   */
  lemma PaddedRecord(p: KeyPattern, pre: string, key: string, value: string, post: string)
    requires forall k :: 0 <= k < |pre| ==> IsTrimChar(pre[k])
    requires forall k :: 0 <= k < |post| ==> IsTrimChar(post[k])
    requires IsKey(p, key)
    requires value == [] || !IsTrimChar(value[|value| - 1])
    ensures ParseLine(p, pre + (key + ":" + value) + post) == Some((key, value))
  {
    var record := key + ":" + value;
    assert record == key + [':'] + value;
    assert ':' !in key;
    assert record[0] == key[0] && IsKeyChar(p, key[0]);
    assert record[|record| - 1] == if value == [] then ':' else value[|value| - 1];
    TrimPadded(pre, record, post);
    ParseLineKeeps(p, pre + record + post, key, value);
  }

  /** The response `key:value` is the map of `key` to the single value `value`. */
  lemma RecordSplitsAtFirstColon(p: KeyPattern, key: string, value: string)
    requires IsKey(p, key) && '\n' !in value
    requires value == [] || !IsTrimChar(value[|value| - 1])
    ensures ResponseData(p, key + ":" + value) == map[key := [value]]
  {
    var line := key + ":" + value;
    ParseLineSplitsAtFirstColon(p, key, value);
    assert '\n' !in key;
    assert '\n' !in line;
    SingleLine(p, line);
    assert Values(map[], key) + [value] == [value];
  }

  /** The map after one more accepted record (or the same map when the line was dropped). */
  function Include(data: AttrMap, record: Option<(string, string)>): AttrMap {
    match record
    case None => data
    case Some(kv) => data[kv.0 := Values(data, kv.0) + [kv.1]]
  }

  /** One more line folds its accepted record, if any, into the map. */
  lemma {:induction false} CollectStep(p: KeyPattern, lines: seq<string>, i: nat)
    requires i < |lines|
    ensures Collect(Pairs(p, lines[..i + 1])) == Include(Collect(Pairs(p, lines[..i])), ParseLine(p, lines[i]))
  {
    assert lines[..i + 1][..i] == lines[..i];
    var ps := Pairs(p, lines[..i]);
    match ParseLine(p, lines[i])
    case None =>
    case Some(kv) =>
      assert (ps + [kv])[..|ps|] == ps;
  }

  /**
   * One pass of the loop of `parseSSOResponseToArray`: the line is trimmed,
   * split at its first `:` and its key checked, each failure a `continue`;
   * an accepted value is appended to its key's list.
   */
  method AddRecord(p: KeyPattern, data: AttrMap, line: string) returns (result: AttrMap)
    ensures result == Include(data, ParseLine(p, line))
  {
    result := data;
    var record := Trim(line);
    if record == "" {
      return;
    }
    var split := SplitFirst(record, ':');
    if split.None? {
      return;
    }
    var key, value := split.value.0, split.value.1;
    if !KeyMatches(p, key) {
      return;
    }
    if key !in result {
      result := result[key := []];
    }
    result := result[key := result[key] + [value]];
    assert result == data[key := Values(data, key) + [value]];
  }

  /**
   * `parseSSOResponseToArray($userDataString)`: the loop over the lines of
   * the text, each accepted record appended to its key's list.
   */
  method ParseSSOResponseToArray(p: KeyPattern, userDataString: string) returns (data: AttrMap)
    ensures data == ResponseData(p, userDataString)
  {
    var records := Explode('\n', userDataString);
    data := map[];
    for i := 0 to |records|
      invariant data == Collect(Pairs(p, records[..i]))
    {
      CollectStep(p, records, i);
      data := AddRecord(p, data, records[i]);
    }
    assert records[..|records|] == records;
  }
}
