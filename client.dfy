/**
 The symbol directory of the stock-data client: the map from ticker symbol
 to company name fetched once when the client is built, and the
 normalisation every lookup goes through (upper-case each input, silently
 drop the ones the directory does not know).
 */
module Client {
  import opened Wrappers
  import opened Text
  import opened Collections

  /** One record of the decoded `/ref-data/symbols?filter=symbol,name` response. */
  datatype SymbolRecord = SymbolRecord(symbol: string, name: string)

  /** What `get_name` and `get_price` accept: one symbol, or a list of them. */
  datatype SymbolArg = Single(symbol: string) | Many(symbols: seq<string>)

  /**
   The exception raised when the symbol list cannot be fetched. The source
   passes the response under a keyword that the exception does not read, so
   the exception carries neither the response nor its status.
   */
  datatype RequestError = RequestException

  /** What `get_price` sends upstream: nothing at all, or one request for the quoted symbols. */
  datatype PriceCall = NoRequest | Request(symbols: seq<string>)

  /** One record of the decoded `/tops/last` response. */
  datatype PriceRecord<P> = PriceRecord(symbol: string, price: P)

  const StatusOk := 200

  /** A single symbol is treated as a one-element list. */
  function AsList(arg: SymbolArg): (xs: seq<string>)
    ensures arg.Single? ==> xs == [arg.symbol]
    ensures arg.Many? ==> xs == arg.symbols
  {
    match arg
    case Single(s) => [s]
    case Many(xs) => xs
  }

  /** The set of upper-cased inputs. */
  function UpperSet(xs: seq<string>): set<string>
  {
    set x | x in xs :: Upper(x)
  }

  /** `[str(s).upper() for s in symbols]`. */
  function UpperAll(xs: seq<string>): (ys: seq<string>)
    ensures |ys| == |xs|
    ensures forall i :: 0 <= i < |xs| ==> ys[i] == Upper(xs[i])
  {
    seq(|xs|, i requires 0 <= i < |xs| => Upper(xs[i]))
  }

  /** The upper-cased inputs as a set are the elements of the upper-cased list. */
  lemma UpperSetElements(xs: seq<string>)
    ensures forall s :: s in UpperSet(xs) <==> s in UpperAll(xs)
    ensures forall x :: x in xs ==> Upper(x) in UpperAll(xs)
  {
    var ups := UpperAll(xs);
    forall x | x in xs ensures Upper(x) in ups {
      var j :| 0 <= j < |xs| && xs[j] == x;
      assert ups[j] == Upper(x);
    }
    forall s | s in ups ensures s in UpperSet(xs) {
      var j :| 0 <= j < |ups| && ups[j] == s;
      assert Upper(xs[j]) == s;
    }
  }

  function SymbolPairs(records: seq<SymbolRecord>): (pairs: seq<(string, string)>)
    ensures |pairs| == |records|
    ensures forall i :: 0 <= i < |records| ==> pairs[i] == (records[i].symbol, records[i].name)
  {
    seq(|records|, i requires 0 <= i < |records| => (records[i].symbol, records[i].name))
  }

  /** `{x['symbol']: x['name'] for x in records}`: the directory holds every record's symbol. */
  function Directory(records: seq<SymbolRecord>): (dir: map<string, string>)
    ensures dir.Keys == set r | r in records :: r.symbol
  {
    var pairs := SymbolPairs(records);
    assert Firsts(pairs) == set r | r in records :: r.symbol by {
      forall s | s in set r | r in records :: r.symbol ensures s in Firsts(pairs) {
        var r :| r in records && r.symbol == s;
        var i :| 0 <= i < |records| && records[i] == r;
        assert pairs[i].0 == s;
      }
    }
    ToMap(pairs)
  }

  /** A symbol listed more than once takes the name of its last record. */
  lemma DirectoryLaterWins(records: seq<SymbolRecord>, i: nat)
    requires i < |records|
    requires forall j :: i < j < |records| ==> records[j].symbol != records[i].symbol
    ensures Directory(records)[records[i].symbol] == records[i].name
  {
    ToMapLastWins(SymbolPairs(records), i);
  }

  /** Every name in the directory is the name of a record for that symbol. */
  lemma DirectoryEntryFromRecord(records: seq<SymbolRecord>, s: string)
    requires s in Directory(records)
    ensures SymbolRecord(s, Directory(records)[s]) in records
  {
    var pairs := SymbolPairs(records);
    ToMapEntryFromPair(pairs, s);
    var i :| 0 <= i < |pairs| && pairs[i] == (s, Directory(records)[s]);
    assert records[i] == SymbolRecord(s, Directory(records)[s]);
  }

  function PricePairs<P>(records: seq<PriceRecord<P>>): (pairs: seq<(string, P)>)
    ensures |pairs| == |records|
    ensures forall i :: 0 <= i < |records| ==> pairs[i] == (records[i].symbol, records[i].price)
  {
    seq(|records|, i requires 0 <= i < |records| => (records[i].symbol, records[i].price))
  }

  /** `{x['symbol']: x['price'] for x in records}`: the table holds every record's symbol. */
  function PriceTable<P>(records: seq<PriceRecord<P>>): (table: map<string, P>)
    ensures table.Keys == set r | r in records :: r.symbol
  {
    var pairs := PricePairs(records);
    assert Firsts(pairs) == set r | r in records :: r.symbol by {
      forall s | s in set r | r in records :: r.symbol ensures s in Firsts(pairs) {
        var r :| r in records && r.symbol == s;
        var i :| 0 <= i < |records| && records[i] == r;
        assert pairs[i].0 == s;
      }
    }
    ToMap(pairs)
  }

  /** A symbol the server lists more than once takes the price of its last record. */
  lemma PriceTableLaterWins<P>(records: seq<PriceRecord<P>>, i: nat)
    requires i < |records|
    requires forall j :: i < j < |records| ==> records[j].symbol != records[i].symbol
    ensures PriceTable(records)[records[i].symbol] == records[i].price
  {
    ToMapLastWins(PricePairs(records), i);
  }

  /** Every price in the table is the price of a record for that symbol. */
  lemma PriceTableEntryFromRecord<P>(records: seq<PriceRecord<P>>, s: string)
    requires s in PriceTable(records)
    ensures PriceRecord(s, PriceTable(records)[s]) in records
  {
    var pairs := PricePairs(records);
    ToMapEntryFromPair(pairs, s);
    var i :| 0 <= i < |pairs| && pairs[i] == (s, PriceTable(records)[s]);
    assert records[i] == PriceRecord(s, PriceTable(records)[s]);
  }

  class Client {
    /** Every symbol the exchange knows, with its company name; fixed once built. */
    const symbols: map<string, string>

    /** Builds the client from the already-decoded symbol list. */
    constructor (records: seq<SymbolRecord>)
      ensures symbols == Directory(records)
    {
      symbols := Directory(records);
    }

    /** The upper-cased inputs the directory knows, in input order, duplicates kept. */
    function KnownSymbols(arg: SymbolArg): (known: seq<string>)
      ensures forall s :: s in known ==> s in symbols && s in UpperAll(AsList(arg))
      ensures forall s :: s in UpperAll(AsList(arg)) && s in symbols ==> s in known
    {
      FilterMembers(s => s in symbols, UpperAll(AsList(arg)));
      Filter(s => s in symbols, UpperAll(AsList(arg)))
    }

    function NamePairs(keys: seq<string>): (pairs: seq<(string, string)>)
      requires forall k :: k in keys ==> k in symbols
      ensures |pairs| == |keys|
      ensures forall i :: 0 <= i < |keys| ==> pairs[i] == (keys[i], symbols[keys[i]])
    {
      seq(|keys|, i requires 0 <= i < |keys| => (keys[i], symbols[keys[i]]))
    }

    /** The keys of the name pairs are the given keys. */
    lemma NamePairsFirsts(keys: seq<string>)
      requires forall k :: k in keys ==> k in symbols
      ensures Firsts(NamePairs(keys)) == set k | k in keys
    {
      var pairs := NamePairs(keys);
      forall k | k in keys ensures k in Firsts(pairs) {
        var i :| 0 <= i < |keys| && keys[i] == k;
        assert pairs[i].0 == k;
      }
    }

    /** A dict built from name pairs maps each key to its directory name. */
    lemma NamePairsValues(keys: seq<string>)
      requires forall k :: k in keys ==> k in symbols
      ensures forall k :: k in ToMap(NamePairs(keys)) ==> ToMap(NamePairs(keys))[k] == symbols[k]
    {
      var pairs := NamePairs(keys);
      forall k | k in ToMap(pairs) ensures ToMap(pairs)[k] == symbols[k] {
        ToMapEntryFromPair(pairs, k);
        var i :| 0 <= i < |pairs| && pairs[i] == (k, ToMap(pairs)[k]);
      }
    }

    /**
     `get_name`: the known symbols among the upper-cased inputs, each with its
     name from the directory; unknown inputs are dropped without error.
     */
    function GetName(arg: SymbolArg): (names: map<string, string>)
      ensures names.Keys == UpperSet(AsList(arg)) * symbols.Keys
      ensures forall k :: k in names ==> names[k] == symbols[k]
    {
      var known := KnownSymbols(arg);
      NamePairsFirsts(known);
      NamePairsValues(known);
      UpperSetElements(AsList(arg));
      assert (set k | k in known) == UpperSet(AsList(arg)) * symbols.Keys;
      ToMap(NamePairs(known))
    }

    /**
     The request `get_price` makes: none when no input is a known symbol,
     otherwise one naming the known symbols in input order, each passed
     through `quote` (`quote_plus`).
     */
    function PriceRequest(arg: SymbolArg, quote: string -> string): (call: PriceCall)
      ensures call.NoRequest? <==> forall x :: x in AsList(arg) ==> Upper(x) !in symbols
      ensures call.Request? ==>
        var known := KnownSymbols(arg);
        |call.symbols| == |known| &&
        forall i :: 0 <= i < |known| ==> call.symbols[i] == quote(known[i])
    {
      var known := KnownSymbols(arg);
      if |known| == 0 then
        UpperSetElements(AsList(arg));
        NoRequest
      else
        assert known[0] in UpperAll(AsList(arg));
        Request(seq(|known|, i requires 0 <= i < |known| => quote(known[i])))
    }

    /**
     `get_price`: `{}` without consulting the server when nothing is known;
     otherwise the server's records as a symbol-to-price dict. `respond` stands
     for the server's answer to a request naming the given symbols.
     */
    function GetPrice<P>(arg: SymbolArg, quote: string -> string,
                         respond: seq<string> -> seq<PriceRecord<P>>): (prices: map<string, P>)
      ensures PriceRequest(arg, quote).NoRequest? ==> prices == map[]
      ensures PriceRequest(arg, quote).Request? ==>
        prices.Keys == set r | r in respond(PriceRequest(arg, quote).symbols) :: r.symbol
      ensures PriceRequest(arg, quote).Request? ==>
        prices == PriceTable(respond(PriceRequest(arg, quote).symbols))
    {
      match PriceRequest(arg, quote)
      case NoRequest => map[]
      case Request(quoted) => PriceTable(respond(quoted))
    }
  }

  /**
   `Client()`: a non-200 status of the symbol-list fetch raises; otherwise the
   client holds the directory built from the decoded records.
   */
  method Connect(status: int, records: seq<SymbolRecord>) returns (r: Result<Client, RequestError>)
    ensures r.Failure? <==> status != StatusOk
    ensures r.Success? ==> r.value.symbols == Directory(records)
  {
    if status != StatusOk {
      return Failure(RequestException);
    }
    var c := new Client(records);
    return Success(c);
  }

  /** A single symbol and the one-element list holding it give the same names. */
  lemma GetNameSingleIsList(c: Client, s: string)
    ensures c.GetName(Single(s)) == c.GetName(Many([s]))
  {
  }

  /** Input case does not matter, and every key of the result is upper-case. */
  lemma GetNameCaseInsensitive(c: Client, xs: seq<string>)
    ensures c.GetName(Many(xs)) == c.GetName(Many(UpperAll(xs)))
    ensures forall k :: k in c.GetName(Many(xs)) ==> IsUpperCase(k)
  {
    var ys := UpperAll(xs);
    assert UpperAll(ys) == ys by {
      forall i | 0 <= i < |ys| ensures UpperAll(ys)[i] == ys[i] {
        UpperIdempotent(xs[i]);
      }
    }
    assert c.KnownSymbols(Many(ys)) == c.KnownSymbols(Many(xs));
  }

  /** Looking up the symbols `get_name` returned gives the same result again. */
  lemma GetNameIdempotent(c: Client, arg: SymbolArg, ys: seq<string>)
    requires (set y | y in ys) == c.GetName(arg).Keys
    ensures c.GetName(Many(ys)) == c.GetName(arg)
  {
    var names := c.GetName(arg);
    var again := c.GetName(Many(ys));
    forall y | y in ys ensures Upper(y) == y && y in c.symbols {
      GetNameKeyIsUpperKnown(c, arg, y);
    }
    UpperSetOfUpperCase(ys);
    assert again.Keys == names.Keys;
    GetNameDeterminedByKeys(c, arg, Many(ys));
  }

  /** Two lookups that return the same symbols return the same names. */
  lemma GetNameDeterminedByKeys(c: Client, arg: SymbolArg, arg': SymbolArg)
    requires c.GetName(arg).Keys == c.GetName(arg').Keys
    ensures c.GetName(arg) == c.GetName(arg')
  {
    var m, m' := c.GetName(arg), c.GetName(arg');
    forall k | k in m ensures m[k] == m'[k] {
    }
  }

  /** Inputs that are already upper-case are their own upper-cased set. */
  lemma UpperSetOfUpperCase(ys: seq<string>)
    requires forall y :: y in ys ==> Upper(y) == y
    ensures UpperSet(ys) == set y | y in ys
  {
    forall k | k in UpperSet(ys) ensures k in ys {
      var y :| y in ys && Upper(y) == k;
    }
  }

  /** A key returned by `get_name` is upper-case and in the directory. */
  lemma GetNameKeyIsUpperKnown(c: Client, arg: SymbolArg, k: string)
    requires k in c.GetName(arg)
    ensures Upper(k) == k && k in c.symbols
  {
    assert k in UpperSet(AsList(arg));
    var x :| x in AsList(arg) && Upper(x) == k;
    UpperIdempotent(x);
  }

  /** The filter in front of `get_price` keeps input order and duplicates. */
  lemma KnownSymbolsAppend(c: Client, xs: seq<string>, ys: seq<string>)
    ensures c.KnownSymbols(Many(xs + ys)) == c.KnownSymbols(Many(xs)) + c.KnownSymbols(Many(ys))
  {
    assert UpperAll(xs + ys) == UpperAll(xs) + UpperAll(ys);
    FilterAppend(s => s in c.symbols, UpperAll(xs), UpperAll(ys));
  }

  /** A known symbol occurs in the filtered list exactly as often as among the upper-cased inputs. */
  lemma KnownSymbolsMultiplicity(c: Client, xs: seq<string>, s: string)
    ensures multiset(c.KnownSymbols(Many(xs)))[s] ==
            if s in c.symbols then multiset(UpperAll(xs))[s] else 0
  {
    FilterMultiplicity(s => s in c.symbols, UpperAll(xs), s);
  }

  /** The list case of the client test: known symbols are found, unknown ones dropped. */
  lemma GetNameListExample(c: Client)
    requires "AAPL" in c.symbols && "FB" in c.symbols && "ZZAA" !in c.symbols
    ensures var names := c.GetName(Many(["aapl", "fb", "zzaa"]));
      "AAPL" in names && "FB" in names && "ZZAA" !in names
  {
    var xs := ["aapl", "fb", "zzaa"];
    assert Upper(xs[0]) == "AAPL";
    assert Upper(xs[1]) == "FB";
  }

  /**
   The list case of the price test (`['aapl', 'fb', 'zzaa']` with AAPL and FB
   known, ZZAA not): only the known symbols are requested, in input order.
   */
  lemma PriceRequestListExample(c: Client, quote: string -> string, a: string, b: string, z: string)
    requires Upper(a) in c.symbols && Upper(b) in c.symbols && Upper(z) !in c.symbols
    ensures c.PriceRequest(Many([a, b, z]), quote) == Request([quote(Upper(a)), quote(Upper(b))])
  {
    KnownListExample(c, a, b, z);
    var call := c.PriceRequest(Many([a, b, z]), quote);
    assert call.Request?;
  }

  /** Filtering two known inputs around an unknown one keeps the known ones, upper-cased, in order. */
  lemma KnownListExample(c: Client, a: string, b: string, z: string)
    requires Upper(a) in c.symbols && Upper(b) in c.symbols && Upper(z) !in c.symbols
    ensures c.KnownSymbols(Many([a, b, z])) == [Upper(a), Upper(b)]
  {
    assert [a] + [b, z] == [a, b, z];
    assert [b] + [z] == [b, z];
    KnownSymbolsAppend(c, [a], [b, z]);
    KnownSymbolsAppend(c, [b], [z]);
    KnownSingle(c, a);
    KnownSingle(c, b);
    KnownSingle(c, z);
  }

  /** The filter on a one-element list. */
  lemma KnownSingle(c: Client, x: string)
    ensures c.KnownSymbols(Many([x])) == if Upper(x) in c.symbols then [Upper(x)] else []
  {
    assert UpperAll([x]) == [Upper(x)];
  }
}
