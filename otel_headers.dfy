/**
 * Parsing the OpenTelemetry exporter header setting, a comma-separated
 * list of `key=value` items, into a dictionary (src/backend/app.py).
 */
module OtelHeaders {
  import opened Wrappers
  import opened Text

  /** `dict()` was handed an item that split on '=' into other than two pieces. */
  datatype HeaderError = MalformedItem(item: string, pieces: nat)

  /** The key and value an item contributes: the text before and after its only '='. */
  function Binding(item: string): (b: Option<(string, string)>)
    ensures b.Some? ==> item == b.value.0 + "=" + b.value.1 && '=' !in b.value.0 && '=' !in b.value.1
  {
    var kv := Split(item, '=');
    JoinSplit(item, '=');
    if |kv| == 2 then
      assert kv[1..] == [kv[1]];
      Some((kv[0], kv[1]))
    else None
  }

  /** An item that passes the `"=" in item` filter but holds more than one '='. */
  predicate Malformed(item: string)
  {
    |Split(item, '=')| > 2
  }

  /** Some item of the list is malformed. */
  predicate AnyMalformed(items: seq<string>)
  {
    exists i :: 0 <= i < |items| && Malformed(items[i])
  }

  /** `dict(item.split("=") for item in items if "=" in item)`: left to right, later keys overwrite. */
  function Collect(items: seq<string>): (r: Result<map<string, string>, HeaderError>)
    ensures r.Err? ==> r.error.item in items && Malformed(r.error.item) && r.error.pieces == |Split(r.error.item, '=')|
    ensures r.Ok? ==> forall k :: k in r.value ==> '=' !in k && '=' !in r.value[k]
    decreases |items|
  {
    if |items| == 0 then Ok(map[])
    else
      match Collect(items[..|items| - 1])
      case Err(e) => Err(e)
      case Ok(headers) =>
        var item := items[|items| - 1];
        if '=' !in item then Ok(headers)
        else
          var kv := Split(item, '=');
          HasEqualsIff(item);
          if |kv| != 2 then Err(MalformedItem(item, |kv|))
          else Ok(headers[kv[0] := kv[1]])
  }

  /** The header dictionary for the setting's raw text; the empty setting gives the empty dictionary. */
  function ParseHeaders(raw: string): (r: Result<map<string, string>, HeaderError>)
    ensures r.Err? ==> Malformed(r.error.item) && r.error.item in Split(raw, ',')
    ensures r.Ok? ==> forall k :: k in r.value ==> '=' !in k && '=' !in r.value[k]
  {
    if raw == "" then Ok(map[]) else Collect(Split(raw, ','))
  }

  /** An item contains '=' exactly when it splits into at least two pieces. */
  lemma HasEqualsIff(item: string)
    ensures '=' in item <==> |Split(item, '=')| >= 2
  {
  }

  predicate BindsKey(item: string, k: string)
  {
    Binding(item).Some? && Binding(item).value.0 == k
  }

  /** Item i binds k and no later item does. */
  ghost predicate IsLastBinding(items: seq<string>, i: int, k: string)
  {
    0 <= i < |items| && BindsKey(items[i], k)
    && forall j :: i < j < |items| ==> !BindsKey(items[j], k)
  }

  /** Parsing fails exactly when some item holds two or more '='. */
  lemma {:induction false} CollectFailsIff(items: seq<string>)
    ensures Collect(items).Err? <==> AnyMalformed(items)
    decreases |items|
  {
    if |items| > 0 {
      var init, last := items[..|items| - 1], items[|items| - 1];
      CollectFailsIff(init);
      HasEqualsIff(last);
      assert forall i :: 0 <= i < |init| ==> init[i] == items[i];
      if AnyMalformed(items) {
        var i :| 0 <= i < |items| && Malformed(items[i]);
        if i < |init| {
          assert Malformed(init[i]);
        }
      }
    }
  }

  /**
   * A successful parse holds exactly the keys some well-formed item binds,
   * and each with the value of the last item that binds it.
   */
  lemma {:induction false} CollectLastWins(items: seq<string>, k: string)
    requires Collect(items).Ok?
    ensures k in Collect(items).value <==> exists i :: 0 <= i < |items| && BindsKey(items[i], k)
    ensures k in Collect(items).value ==>
      exists i :: IsLastBinding(items, i, k) && Collect(items).value[k] == Binding(items[i]).value.1
    decreases |items|
  {
    if |items| > 0 {
      var n := |items| - 1;
      var init, last := items[..n], items[n];
      assert forall i :: 0 <= i < n ==> init[i] == items[i];
      CollectLastWins(init, k);
      HasEqualsIff(last);
      var before := Collect(init).value;
      var m := Collect(items).value;
      if !BindsKey(last, k) {
        assert k in m <==> k in before;
        if exists i :: 0 <= i < |items| && BindsKey(items[i], k) {
          var i :| 0 <= i < |items| && BindsKey(items[i], k);
          assert i < n && BindsKey(init[i], k);
        }
        if k in m {
          var i :| IsLastBinding(init, i, k) && before[k] == Binding(init[i]).value.1;
          assert IsLastBinding(items, i, k);
        }
      } else {
        assert Binding(last) == Some((k, m[k]));
        assert IsLastBinding(items, n, k);
      }
    }
  }

  /** Items without any '=' are skipped: a setting with none yields no headers. */
  lemma {:induction false} NoBindingsNoHeaders(items: seq<string>)
    requires forall i :: 0 <= i < |items| ==> '=' !in items[i]
    ensures Collect(items) == Ok(map[])
    decreases |items|
  {
    if |items| > 0 {
      NoBindingsNoHeaders(items[..|items| - 1]);
    }
  }

  /** The parse of the whole setting: failure iff a malformed item, else last-wins bindings. */
  lemma ParseHeadersMeaning(raw: string, k: string)
    ensures raw == "" ==> ParseHeaders(raw) == Ok(map[])
    ensures raw != "" ==>
      (ParseHeaders(raw).Err? <==> AnyMalformed(Split(raw, ',')))
    ensures raw != "" && ParseHeaders(raw).Ok? ==>
      (k in ParseHeaders(raw).value <==> exists i :: 0 <= i < |Split(raw, ',')| && BindsKey(Split(raw, ',')[i], k))
  {
    if raw != "" {
      var items := Split(raw, ',');
      assert ParseHeaders(raw) == Collect(items);
      CollectFailsIff(items);
      if ParseHeaders(raw).Ok? {
        CollectLastWins(items, k);
      }
    }
  }

  /** The item a key and value are written as. */
  function Item(pair: (string, string)): string
  {
    pair.0 + "=" + pair.1
  }

  /** The items for a list of pairs, in order. */
  function Items(pairs: seq<(string, string)>): (items: seq<string>)
    ensures |items| == |pairs|
    ensures forall i :: 0 <= i < |pairs| ==> items[i] == Item(pairs[i])
    decreases |pairs|
  {
    if |pairs| == 0 then [] else Items(pairs[..|pairs| - 1]) + [Item(pairs[|pairs| - 1])]
  }

  /** A header setting written from pairs: `k1=v1,k2=v2,...`. */
  function Render(pairs: seq<(string, string)>): string
  {
    Join(",", Items(pairs))
  }

  /** The dictionary the pairs denote, later pairs overriding earlier ones. */
  function PairsToMap(pairs: seq<(string, string)>): map<string, string>
    decreases |pairs|
  {
    if |pairs| == 0 then map[] else PairsToMap(pairs[..|pairs| - 1])[pairs[|pairs| - 1].0 := pairs[|pairs| - 1].1]
  }

  predicate Plain(s: string)
  {
    ',' !in s && '=' !in s
  }

  lemma ItemBinding(pair: (string, string))
    requires Plain(pair.0) && Plain(pair.1)
    ensures Binding(Item(pair)) == Some(pair)
    ensures '=' in Item(pair) && ',' !in Item(pair)
  {
    SplitAtFirst(pair.0, '=', pair.1);
    SplitWithoutSeparator(pair.1, '=');
    assert Item(pair) == pair.0 + ['='] + pair.1;
    assert Item(pair)[|pair.0|] == '=';
  }

  lemma {:induction false} CollectItems(pairs: seq<(string, string)>)
    requires forall i :: 0 <= i < |pairs| ==> Plain(pairs[i].0) && Plain(pairs[i].1)
    ensures Collect(Items(pairs)) == Ok(PairsToMap(pairs))
    decreases |pairs|
  {
    if |pairs| > 0 {
      var n := |pairs| - 1;
      CollectItems(pairs[..n]);
      ItemBinding(pairs[n]);
      assert Items(pairs)[..n] == Items(pairs[..n]);
    }
  }

  /** Parsing a setting written from plain pairs gives back the dictionary of those pairs. */
  lemma ParseRender(pairs: seq<(string, string)>)
    requires forall i :: 0 <= i < |pairs| ==> Plain(pairs[i].0) && Plain(pairs[i].1)
    ensures ParseHeaders(Render(pairs)) == Ok(PairsToMap(pairs))
  {
    var items := Items(pairs);
    if |pairs| > 0 {
      forall i | 0 <= i < |items|
        ensures ',' !in items[i]
      {
        ItemBinding(pairs[i]);
      }
      ItemBinding(pairs[0]);
      JoinEnds(",", items);
      assert Render(pairs) != "";
      SplitJoin(items, ',');
      CollectItems(pairs);
    }
  }
}
