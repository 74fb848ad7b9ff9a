/** The JSON file store of app/services/storage.py.

    The file is seen through what json.loads makes of it: absent, not JSON at all, or an array
    whose elements either are accepted by the Product model or are rejected by it. */
module Storage {
  import opened Wrappers
  import opened Schemas

  /** One element of the stored array: one Product(**entry) accepts, or one it rejects. */
  datatype RawEntry = ProductEntry(product: Product) | InvalidEntry(detail: string)

  /** The storage file: absent, content json.loads rejects (with its message), or an array. */
  datatype FileState = Missing | Malformed(detail: string) | Json(entries: seq<RawEntry>)

  /** The exceptions the store raises. */
  datatype StorageError = EmptySave | LoadFailed(detail: string)

  /** str(e) of those exceptions. A malformed file's message is wrapped twice, once by the
      JSONDecodeError handler and once more by the outer handler of load_products. */
  function StorageErrorMessage(e: StorageError): (message: string)
    ensures e.LoadFailed? ==> |message| == 2 * |LoadErrorPrefix| + |e.detail|
    ensures e.LoadFailed? ==> message[2 * |LoadErrorPrefix|..] == e.detail
  {
    match e
    case EmptySave => "Validation Error: No products to save"
    case LoadFailed(detail) => LoadErrorPrefix + LoadErrorPrefix + detail
  }

  /** The prefix both handlers of load_products put in front of the message they wrap. */
  const LoadErrorPrefix := "Error loading products from JSON: "

  /** The messages tell the errors apart: a load failure's detail can be read back. */
  lemma StorageErrorMessageInjective(e1: StorageError, e2: StorageError)
    requires StorageErrorMessage(e1) == StorageErrorMessage(e2)
    ensures e1 == e2
  {
  }

  /** The array the save writes: one accepted entry per product, in order. */
  function Encode(products: seq<Product>): seq<RawEntry> {
    seq(|products|, i requires 0 <= i < |products| => ProductEntry(products[i]))
  }

  /** The products of the accepted entries, in file order. */
  function ValidProducts(entries: seq<RawEntry>): seq<Product> {
    if entries == [] then []
    else
      ValidProducts(entries[..|entries| - 1]) +
        match entries[|entries| - 1]
        case ProductEntry(p) => [p]
        case InvalidEntry(_) => []
  }

  /** Entries are judged one by one: a rejected entry costs only itself. */
  lemma {:induction false} ValidProductsConcat(a: seq<RawEntry>, b: seq<RawEntry>)
    ensures ValidProducts(a + b) == ValidProducts(a) + ValidProducts(b)
    decreases |b|
  {
    if b == [] {
      assert a + b == a;
    } else {
      var b' := b[..|b| - 1];
      assert (a + b)[..|a + b| - 1] == a + b';
      assert (a + b)[|a + b| - 1] == b[|b| - 1];
      ValidProductsConcat(a, b');
    }
  }

  /** At most one product per entry, and only rejected entries are dropped. */
  lemma {:induction false} ValidProductsBound(entries: seq<RawEntry>)
    ensures |ValidProducts(entries)| <= |entries|
    ensures |ValidProducts(entries)| == |entries| <==> forall i :: 0 <= i < |entries| ==> entries[i].ProductEntry?
  {
    if entries != [] {
      var prefix := entries[..|entries| - 1];
      ValidProductsBound(prefix);
      if |ValidProducts(entries)| == |entries| {
        forall i | 0 <= i < |entries| ensures entries[i].ProductEntry? {
          if i < |prefix| {
            assert entries[i] == prefix[i];
          }
        }
      }
    }
  }

  /** What was dumped is read back: every dumped product is accepted, in the same order. */
  lemma {:induction false} ValidProductsOfEncode(products: seq<Product>)
    ensures ValidProducts(Encode(products)) == products
  {
    if products != [] {
      var prefix := products[..|products| - 1];
      ValidProductsOfEncode(prefix);
      assert Encode(products)[..|products| - 1] == Encode(prefix);
    }
  }

  /** load_products on a given file. */
  function LoadSpec(file: FileState): Result<seq<Product>, StorageError> {
    match file
    case Missing => Success([])
    case Malformed(detail) => Failure(LoadFailed(detail))
    case Json(entries) => Success(ValidProducts(entries))
  }

  /** A save of a non-empty list followed by a load returns exactly that list. */
  lemma LoadAfterSave(products: seq<Product>)
    ensures LoadSpec(Json(Encode(products))) == Success(products)
  {
    ValidProductsOfEncode(products);
  }

  class JsonFileStorage {
    var file: FileState

    /** __init__: an absent file is created holding `[]`; an existing one is left as it is. */
    constructor (initial: FileState)
      ensures file == if initial.Missing? then Json([]) else initial
    {
      file := if initial.Missing? then Json([]) else initial;
    }

    /** save_products(products): an empty list is refused, any other overwrites the file. */
    method SaveProducts(products: seq<Product>) returns (r: Result<(), StorageError>)
      modifies this
      ensures products == [] ==> r == Failure(EmptySave) && file == old(file)
      ensures products != [] ==> r == Success(()) && file == Json(Encode(products))
    {
      if products == [] {
        return Failure(EmptySave);
      }
      file := Json(Encode(products));
      return Success(());
    }

    /** load_products(): the accepted entries in order, skipping the rejected ones. */
    method LoadProducts() returns (r: Result<seq<Product>, StorageError>)
      ensures r == LoadSpec(file)
      ensures r.Success? && file.Json? ==> |r.value| <= |file.entries|
    {
      match file {
        case Missing => return Success([]);
        case Malformed(detail) => return Failure(LoadFailed(detail));
        case Json(data) =>
          var validProducts: seq<Product> := [];
          for idx := 0 to |data|
            invariant validProducts == ValidProducts(data[..idx])
          {
            assert data[..idx + 1][..idx] == data[..idx];
            match data[idx] {
              case ProductEntry(p) => validProducts := validProducts + [p];
              case InvalidEntry(_) =>
            }
          }
          assert data[..|data|] == data;
          ValidProductsBound(data);
          return Success(validProducts);
      }
    }
  }
}
