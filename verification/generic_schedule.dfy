/** The row editing of components/schedules/GenericSchedule.tsx: a schedule
    is a list of rows with an id, a description and two amounts (kept as
    the text typed in); a row is edited, appended or removed by id. The
    fresh id of a new row is a parameter. */
module GenericSchedule {
  import Seqs

  datatype Item = Item(id: string, particular: string, amountCy: string, amountPy: string)

  /** The editable fields, every field but the id. */
  datatype Field = Particular | AmountCy | AmountPy

  function Get(it: Item, f: Field): string {
    match f
    case Particular => it.particular
    case AmountCy => it.amountCy
    case AmountPy => it.amountPy
  }

  /** `{ ...item, [field]: value }`: the named field replaced, the id and
      the other fields kept. */
  function Set(it: Item, f: Field, value: string): (r: Item)
    ensures r.id == it.id
    ensures forall g :: Get(r, g) == if g == f then value else Get(it, g)
  {
    match f
    case Particular => it.(particular := value)
    case AmountCy => it.(amountCy := value)
    case AmountPy => it.(amountPy := value)
  }

  predicate HasId(data: seq<Item>, id: string) {
    exists i :: 0 <= i < |data| && data[i].id == id
  }

  /** `handleUpdate` (lines 16-18): every row with the id gets the value in
      the named field; the list keeps its length, order and ids. */
  function Update(data: seq<Item>, id: string, f: Field, value: string): (r: seq<Item>)
    ensures |r| == |data|
    ensures forall i :: 0 <= i < |data| ==> r[i].id == data[i].id
    ensures forall i :: 0 <= i < |data| && data[i].id == id ==> Get(r[i], f) == value
    ensures forall i, g :: 0 <= i < |data| && (data[i].id != id || g != f) ==> Get(r[i], g) == Get(data[i], g)
  {
    seq(|data|, i requires 0 <= i < |data| => if data[i].id == id then Set(data[i], f, value) else data[i])
  }

  /** The row `addRow` appends: empty description, both amounts "0". */
  function NewRow(id: string): Item {
    Item(id, "", "0", "0")
  }

  /** `addRow` (lines 20-23): one new row at the end, the others
      unchanged. */
  function AddRow(data: seq<Item>, newId: string): (r: seq<Item>)
    ensures |r| == |data| + 1 && r[..|data|] == data
    ensures r[|data|] == NewRow(newId)
  {
    data + [NewRow(newId)]
  }

  function OtherId(id: string): Item -> bool {
    (it: Item) => it.id != id
  }

  /** `removeRow` (lines 25-27): every row with the id dropped, the others
      kept in order. */
  function RemoveRow(data: seq<Item>, id: string): (r: seq<Item>)
    ensures !HasId(r, id)
    ensures forall it :: it in data && it.id != id ==> it in r
    ensures forall it :: it in r ==> it in data
    ensures forall k :: 0 <= k <= |data| ==> r == Seqs.Filter(data[..k], OtherId(id)) + Seqs.Filter(data[k..], OtherId(id))
  {
    Seqs.FilterSplit(data, OtherId(id));
    Seqs.Filter(data, OtherId(id))
  }

  /** Removal keeps the order of the remaining rows: removing from a
      schedule in two parts is removing from each part. */
  lemma RemoveOrder(a: seq<Item>, b: seq<Item>, id: string)
    ensures RemoveRow(a + b, id) == RemoveRow(a, id) + RemoveRow(b, id)
  {
    Seqs.FilterConcat(a, b, OtherId(id));
  }

  /** Editing a row that is not there changes nothing. */
  lemma UpdateAbsent(data: seq<Item>, id: string, f: Field, value: string)
    requires !HasId(data, id)
    ensures Update(data, id, f, value) == data
  {
    var r := Update(data, id, f, value);
    forall i | 0 <= i < |data| ensures r[i] == data[i] {
      assert data[i].id != id;
    }
  }

  /** Removing a row that is not there changes nothing. */
  lemma RemoveAbsent(data: seq<Item>, id: string)
    requires !HasId(data, id)
    ensures RemoveRow(data, id) == data
  {
    Seqs.FilterAll(data, OtherId(id));
  }

  /** Removing the rows of an id drops exactly as many rows as carry it. */
  lemma RemoveCount(data: seq<Item>, id: string)
    ensures |RemoveRow(data, id)| + |Seqs.Filter(data, (it: Item) => it.id == id)| == |data|
  {
    Seqs.FilterPartition(data, (it: Item) => it.id == id, OtherId(id));
  }

  /** Adding a row with a fresh id and removing it again restores the
      schedule. */
  lemma RemoveAfterAdd(data: seq<Item>, newId: string)
    requires !HasId(data, newId)
    ensures RemoveRow(AddRow(data, newId), newId) == data
  {
    Seqs.FilterConcat(data, [NewRow(newId)], OtherId(newId));
    RemoveAbsent(data, newId);
    assert Seqs.Filter([NewRow(newId)], OtherId(newId)) == [];
  }

  /** Removing a row discards any edit made to it. */
  lemma {:induction false} RemoveAfterUpdate(data: seq<Item>, id: string, f: Field, value: string)
    ensures RemoveRow(Update(data, id, f, value), id) == RemoveRow(data, id)
  {
    if |data| > 0 {
      var u := Update(data, id, f, value);
      RemoveAfterUpdate(data[1..], id, f, value);
      assert u[1..] == Update(data[1..], id, f, value);
      if data[0].id != id {
        assert u[0] == data[0];
      }
    }
  }

  /** Making the same edit twice is making it once. */
  lemma UpdateTwice(data: seq<Item>, id: string, f: Field, value: string)
    ensures Update(Update(data, id, f, value), id, f, value) == Update(data, id, f, value)
  {
    var once := Update(data, id, f, value);
    var twice := Update(once, id, f, value);
    forall i | 0 <= i < |data| ensures twice[i] == once[i] {
      if data[i].id == id {
        assert Get(twice[i], Particular) == Get(once[i], Particular);
        assert Get(twice[i], AmountCy) == Get(once[i], AmountCy);
        assert Get(twice[i], AmountPy) == Get(once[i], AmountPy);
      }
    }
  }
}
