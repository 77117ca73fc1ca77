/** A TypeORM repository over one table, kept in memory: rows by primary key and
    the next value of the key's sequence (`@PrimaryGeneratedColumn`, from 1). */
module Tables {
  import opened Responses

  function Lookup<T>(rows: map<nat, T>, id: nat): (r: Option<T>)
    ensures r.Some? <==> id in rows
    ensures r.Some? ==> r.value == rows[id]
  {
    if id in rows then Some(rows[id]) else None
  }

  /** The rows a `where` clause selects. */
  function Where<T>(rows: map<nat, T>, keep: T -> bool): (r: map<nat, T>)
    ensures forall id :: id in r <==> id in rows && keep(rows[id])
    ensures forall id :: id in r ==> r[id] == rows[id]
  {
    map id | id in rows && keep(rows[id]) :: rows[id]
  }

  class Table<T> {
    var rows: map<nat, T>
    var next: nat

    /** Every key was handed out by the sequence. */
    ghost predicate Valid()
      reads this
    {
      0 < next && forall id :: id in rows ==> 0 < id < next
    }

    constructor ()
      ensures Valid() && rows == map[] && next == 1
    {
      rows, next := map[], 1;
    }

    /** `findOneBy({ id })`. */
    method Get(id: nat) returns (row: Option<T>)
      ensures row == Lookup(rows, id)
    {
      row := if id in rows then Some(rows[id]) else None;
    }

    /** `findOne({ where })`: the key of some row the clause selects, if any.
        Which one is not specified when several qualify. */
    method Find(keep: T -> bool) returns (found: Option<nat>)
      ensures found.None? <==> forall id :: id in rows ==> !keep(rows[id])
      ensures found.Some? ==> found.value in rows && keep(rows[found.value])
    {
      var todo := rows.Keys;
      found := None;
      while todo != {}
        invariant todo <= rows.Keys
        invariant forall id :: id in rows && id !in todo ==> !keep(rows[id])
        decreases |todo|
      {
        var id :| id in todo;
        if keep(rows[id]) {
          return Some(id);
        }
        todo := todo - {id};
      }
    }

    /** `save` of a new entity: the row gets the sequence's next key. */
    method Insert(row: T) returns (id: nat)
      requires Valid()
      modifies this
      ensures Valid()
      ensures id == old(next) && id !in old(rows) && 0 < id
      ensures rows == old(rows)[id := row] && next == old(next) + 1
    {
      id := next;
      rows := rows[id := row];
      next := next + 1;
    }

    /** `update(id, ...)` or `save` of a loaded entity: replaces the row with that
        key; a key with no row affects nothing. */
    method Put(id: nat, row: T)
      requires Valid()
      modifies this
      ensures Valid() && next == old(next)
      ensures rows == if id in old(rows) then old(rows)[id := row] else old(rows)
    {
      if id in rows {
        rows := rows[id := row];
      }
    }

    /** `delete(id)`. */
    method Delete(id: nat)
      requires Valid()
      modifies this
      ensures Valid() && next == old(next)
      ensures rows == old(rows) - {id}
    {
      rows := rows - {id};
    }

    /** An `ON DELETE CASCADE`: only the rows `keep` accepts stay. */
    method DeleteWhere(keep: T -> bool)
      requires Valid()
      modifies this
      ensures Valid() && next == old(next)
      ensures rows == Where(old(rows), keep)
    {
      rows := map id | id in rows && keep(rows[id]) :: rows[id];
    }
  }
}
