/**
 * Tape locators: the java.net.URI values a flush produces and a remove
 * consumes (scheme = storage type, authority = storage name, query
 * `bfid=<id>`), with the generic-URI grammar of section 3 of RFC 2396 reduced
 * to the check that decides whether construction succeeds, and the Guava
 * key-value splitting the remove applies to the query.
 */
module Locators {
  import opened Wrappers
  import opened Text
  import opened Failures

  /** The components of a URI; an absent component is None (Java's null). */
  datatype Uri = Uri(
    scheme: Option<string>,
    authority: Option<string>,
    path: string,
    query: Option<string>,
    fragment: Option<string>)

  predicate IsAlpha(c: char) { 'a' <= c <= 'z' || 'A' <= c <= 'Z' }

  /** scheme = alpha *( alpha | digit | "+" | "-" | "." ), section 3.1 of RFC 2396. */
  predicate ValidScheme(s: string)
  {
    |s| >= 1 && IsAlpha(s[0])
    && forall i :: 1 <= i < |s| ==> IsAlpha(s[i]) || IsDigit(s[i]) || s[i] in "+-."
  }

  function Part(o: Option<string>, prefix: string): string
  {
    if o.Some? then prefix + o.value else ""
  }

  /** URI.toASCIIString; the percent-quoting of characters outside ASCII is not modelled. */
  function ToAscii(u: Uri): string
  {
    Part(u.scheme, "") + (if u.scheme.Some? then ":" else "")
    + Part(u.authority, "//") + u.path + Part(u.query, "?") + Part(u.fragment, "#")
  }

  /**
   * new URI(scheme, authority, path, query, fragment): an invalid scheme, or a
   * relative path under a scheme, is a URISyntaxException.
   */
  function NewUri(scheme: Option<string>, authority: Option<string>, path: Option<string>,
                  query: Option<string>, fragment: Option<string>): (r: Result<Uri, Failure>)
    ensures r.Ok? <==> (scheme.Some? ==> ValidScheme(scheme.value)
                                         && (path.Some? && path.value != "" ==> path.value[0] == '/'))
    ensures r.Ok? ==> r.value.scheme == scheme && r.value.authority == authority
                      && r.value.query == query && r.value.fragment == fragment
                      && r.value.path == (if path.Some? then path.value else "")
  {
    var u := Uri(scheme, authority, if path.Some? then path.value else "", query, fragment);
    if scheme.Some? && path.Some? && path.value != "" && path.value[0] != '/' then Err(URISyntax(ToAscii(u)))
    else if scheme.Some? && !ValidScheme(scheme.value) then Err(URISyntax(ToAscii(u)))
    else Ok(u)
  }

  /** The locator a finished flush reports: new URI(type, name, null, "bfid=" + id, null). */
  function FlushLocator(storageType: string, storageName: string, pnfsId: string): (r: Result<Uri, Failure>)
    ensures r.Ok? <==> ValidScheme(storageType)
    ensures r.Ok? ==> r.value == Uri(Some(storageType), Some(storageName), "", Some("bfid=" + pnfsId), None)
  {
    NewUri(Some(storageType), Some(storageName), None, Some("bfid=" + pnfsId), None)
  }

  /** The locator's text has the form type://name?bfid=id (there is no path, so no "/"). */
  lemma FlushLocatorText(storageType: string, storageName: string, pnfsId: string)
    requires ValidScheme(storageType)
    ensures ToAscii(FlushLocator(storageType, storageName, pnfsId).value)
            == storageType + "://" + storageName + "?bfid=" + pnfsId
  {
  }

  // --------------------------------------------------------- query splitting

  /**
   * Splitter.on('&').withKeyValueSeparator('=').split applied to the pieces
   * of a query: each piece must be exactly key=value and no key may repeat.
   */
  function EntriesToMap(entries: seq<string>, acc: map<string, string>): (r: Result<map<string, string>, Failure>)
    ensures r.Ok? ==> acc.Keys <= r.value.Keys
    decreases |entries|
  {
    if entries == [] then Ok(acc)
    else
      var fields := Split(entries[0], '=');
      if fields[0] in acc then Err(IllegalArgument("Duplicate key [" + fields[0] + "] found."))
      else if |fields| != 2 then Err(IllegalArgument("Chunk [" + entries[0] + "] is not a valid entry"))
      else EntriesToMap(entries[1..], acc[fields[0] := fields[1]])
  }

  function QueryMap(query: string): Result<map<string, string>, Failure>
  {
    EntriesToMap(Split(query, '&'), map[])
  }

  /** RemoveTask.getPnfsId: the bfid value of the locator's query. */
  function GetPnfsId(u: Uri): (r: Result<string, Failure>)
    ensures u.query.None? ==> r == Err(IllegalArgument("URI lacks query part"))
  {
    if u.query.None? then Err(IllegalArgument("URI lacks query part"))
    else
      match QueryMap(u.query.value)
      case Err(e) => Err(e)
      case Ok(m) =>
        if "bfid" in m then Ok(m["bfid"]) else Err(IllegalArgument("Query part lacks bfid parameter"))
  }

  /** A key and a value usable in a query: neither contains a separator. */
  predicate PlainPair(kv: (string, string))
  {
    '&' !in kv.0 && '=' !in kv.0 && '&' !in kv.1 && '=' !in kv.1
  }

  /** `entries` are the key=value texts of `pairs`, in order. */
  predicate Renders(entries: seq<string>, pairs: seq<(string, string)>)
  {
    |entries| == |pairs| && forall i :: 0 <= i < |pairs| ==> entries[i] == pairs[i].0 + "=" + pairs[i].1
  }

  function PairsMap(pairs: seq<(string, string)>): (m: map<string, string>)
  {
    if pairs == [] then map[] else PairsMap(pairs[1..])[pairs[0].0 := pairs[0].1]
  }

  predicate DistinctKeys(pairs: seq<(string, string)>)
  {
    forall i, j :: 0 <= i < j < |pairs| ==> pairs[i].0 != pairs[j].0
  }

  lemma {:induction false} PairsMapKeys(pairs: seq<(string, string)>)
    ensures PairsMap(pairs).Keys == set i | 0 <= i < |pairs| :: pairs[i].0
    decreases |pairs|
  {
    if pairs != [] {
      PairsMapKeys(pairs[1..]);
      var all := set i | 0 <= i < |pairs| :: pairs[i].0;
      var rest := set i | 0 <= i < |pairs[1..]| :: pairs[1..][i].0;
      assert all == rest + {pairs[0].0} by {
        forall k | k in all ensures k in rest + {pairs[0].0} {
          var i :| 0 <= i < |pairs| && pairs[i].0 == k;
          if i > 0 { assert pairs[1..][i - 1].0 == k; }
        }
      }
    }
  }

  lemma EntryFields(kv: (string, string))
    requires PlainPair(kv)
    ensures Split(kv.0 + "=" + kv.1, '=') == [kv.0, kv.1]
  {
    assert Join([kv.0, kv.1], "=") == kv.0 + "=" + kv.1 by {
      JoinCons(kv.0, [kv.1], "=");
    }
    SplitJoin([kv.0, kv.1], '=');
  }

  lemma UpdateThenUnion(a: map<string, string>, b: map<string, string>, k: string, v: string)
    requires k !in b
    ensures a[k := v] + b == a + b[k := v]
  {
  }

  lemma {:induction false} EntriesToMapOfPairs(pairs: seq<(string, string)>, entries: seq<string>,
                                              acc: map<string, string>)
    requires forall i :: 0 <= i < |pairs| ==> PlainPair(pairs[i])
    requires DistinctKeys(pairs) && Renders(entries, pairs)
    requires forall i :: 0 <= i < |pairs| ==> pairs[i].0 !in acc
    ensures EntriesToMap(entries, acc) == Ok(acc + PairsMap(pairs))
    decreases |pairs|
  {
    if pairs != [] {
      var (k, v) := pairs[0];
      var rest := pairs[1..];
      assert entries[0] == k + "=" + v;
      EntryFields(pairs[0]);
      assert Split(entries[0], '=') == [k, v];
      var acc' := acc[k := v];
      assert EntriesToMap(entries, acc) == EntriesToMap(entries[1..], acc');
      forall i | 0 <= i < |rest| ensures rest[i].0 !in acc' && rest[i].0 != k {
        assert rest[i] == pairs[i + 1];
      }
      assert Renders(entries[1..], rest) by {
        forall i | 0 <= i < |rest| ensures entries[1..][i] == rest[i].0 + "=" + rest[i].1 {
          assert entries[1..][i] == entries[i + 1] && rest[i] == pairs[i + 1];
        }
      }
      EntriesToMapOfPairs(rest, entries[1..], acc');
      PairsMapKeys(rest);
      assert k !in PairsMap(rest);
      UpdateThenUnion(acc, PairsMap(rest), k, v);
      assert PairsMap(pairs) == PairsMap(rest)[k := v];
    } else {
      assert acc + PairsMap(pairs) == acc;
    }
  }

  /** Splitting a query on '&' gives back the entries it was joined from. */
  lemma QueryOfEntries(entries: seq<string>)
    requires |entries| >= 1
    requires forall i :: 0 <= i < |entries| ==> '&' !in entries[i]
    ensures QueryMap(Join(entries, "&")) == EntriesToMap(entries, map[])
  {
    SplitJoin(entries, '&');
  }

  /**
   * A query made of distinct plain key=value pairs joined by '&' splits back
   * into exactly those pairs.
   */
  lemma QueryMapOfPairs(pairs: seq<(string, string)>, entries: seq<string>)
    requires |pairs| >= 1
    requires forall i :: 0 <= i < |pairs| ==> PlainPair(pairs[i])
    requires DistinctKeys(pairs) && Renders(entries, pairs)
    ensures QueryMap(Join(entries, "&")) == Ok(PairsMap(pairs))
  {
    forall i | 0 <= i < |entries| ensures '&' !in entries[i] {
      assert PlainPair(pairs[i]);
    }
    QueryOfEntries(entries);
    EntriesToMapOfPairs(pairs, entries, map[]);
    assert map[] + PairsMap(pairs) == PairsMap(pairs);
  }

  lemma {:induction false} PairsMapLookup(pairs: seq<(string, string)>, k: nat)
    requires DistinctKeys(pairs) && k < |pairs|
    ensures pairs[k].0 in PairsMap(pairs) && PairsMap(pairs)[pairs[k].0] == pairs[k].1
    decreases |pairs|
  {
    if k > 0 {
      assert pairs[1..][k - 1] == pairs[k];
      PairsMapLookup(pairs[1..], k - 1);
    }
  }

  /** The extracted id is the value paired with bfid in the query. */
  lemma GetPnfsIdFindsBfid(u: Uri, pairs: seq<(string, string)>, entries: seq<string>, k: nat)
    requires |pairs| >= 1 && Renders(entries, pairs) && u.query == Some(Join(entries, "&"))
    requires forall i :: 0 <= i < |pairs| ==> PlainPair(pairs[i])
    requires DistinctKeys(pairs)
    requires k < |pairs| && pairs[k].0 == "bfid"
    ensures GetPnfsId(u) == Ok(pairs[k].1)
  {
    QueryMapOfPairs(pairs, entries);
    PairsMapLookup(pairs, k);
  }

  /** A well-formed query without a bfid key is rejected with the source's message. */
  lemma GetPnfsIdWithoutBfid(u: Uri, pairs: seq<(string, string)>, entries: seq<string>)
    requires |pairs| >= 1 && Renders(entries, pairs) && u.query == Some(Join(entries, "&"))
    requires forall i :: 0 <= i < |pairs| ==> PlainPair(pairs[i]) && pairs[i].0 != "bfid"
    requires DistinctKeys(pairs)
    ensures GetPnfsId(u) == Err(IllegalArgument("Query part lacks bfid parameter"))
  {
    QueryMapOfPairs(pairs, entries);
    PairsMapKeys(pairs);
  }

  /**
   * Round trip: the id a remove extracts from a flush's locator is the id the
   * flush put there, when the id holds no separator.
   */
  lemma FlushLocatorRoundTrip(storageType: string, storageName: string, pnfsId: string)
    requires ValidScheme(storageType) && '&' !in pnfsId && '=' !in pnfsId
    ensures GetPnfsId(FlushLocator(storageType, storageName, pnfsId).value) == Ok(pnfsId)
  {
    var pairs := [("bfid", pnfsId)];
    var entries := ["bfid=" + pnfsId];
    assert Join(entries, "&") == "bfid=" + pnfsId;
    GetPnfsIdFindsBfid(FlushLocator(storageType, storageName, pnfsId).value, pairs, entries, 0);
  }
}
