/** The database behind the drink code, reduced to what that code relies
    on: the `drinks` and `drinks_ingredients` tables, the four statements
    drink.go issues, and transactions that stage statements and apply all
    of them on commit or none of them. Whether a step fails is decided by
    the database and is given to the model as an input. */
module Store {
  import opened Wrappers
  import opened Errors

  /** Timestamps are abstract: only their order matters. */
  type Time = int

  /** A row of `drinks`. */
  datatype DrinkRow = DrinkRow(id: string, name: string, price: string, start: Option<Time>, end: Option<Time>)

  /** A row of `drinks_ingredients`; the pair is the whole row. */
  datatype IngredientRow = IngredientRow(drinkId: string, ingredient: string)

  /** `drinks` in insertion order (the order of its `created` column), and
      `drinks_ingredients`. */
  datatype Tables = Tables(drinks: seq<DrinkRow>, drinkIngredients: seq<IngredientRow>)

  datatype Stmt =
    | InsertDrink(row: DrinkRow)                    // INSERT INTO drinks (id, name, price, start, "end")
    | InsertIngredients(rows: seq<IngredientRow>)   // INSERT INTO drinks_ingredients (drink_id, ingredient)
    | DeleteDrink(id: string)                       // DELETE FROM drinks WHERE id = $1
    | DeleteIngredients(drinkId: string)            // DELETE FROM drinks_ingredients WHERE drink_id = $1

  /** The rows of `drinks` whose id is not `id`, in their order. */
  function WithoutDrink(rows: seq<DrinkRow>, id: string): (r: seq<DrinkRow>)
    ensures forall x :: x in r <==> x in rows && x.id != id
  {
    if rows == [] then []
    else (if rows[0].id == id then [] else [rows[0]]) + WithoutDrink(rows[1..], id)
  }

  /** The rows of `drinks_ingredients` that do not belong to `id`, in their order. */
  function WithoutIngredientsOf(rows: seq<IngredientRow>, id: string): (r: seq<IngredientRow>)
    ensures forall x :: x in r <==> x in rows && x.drinkId != id
  {
    if rows == [] then []
    else (if rows[0].drinkId == id then [] else [rows[0]]) + WithoutIngredientsOf(rows[1..], id)
  }

  /** The effect of one statement that succeeded: it changes only the
      table it names; an insert keeps the old rows in front of the new ones;
      a delete keeps exactly the rows of other ids; and no row appears that
      was neither there before nor inserted by the statement. */
  function Apply(t: Tables, s: Stmt): (r: Tables)
    ensures s.InsertDrink? || s.DeleteDrink? ==> r.drinkIngredients == t.drinkIngredients
    ensures s.InsertIngredients? || s.DeleteIngredients? ==> r.drinks == t.drinks
    ensures s.InsertDrink? ==> t.drinks <= r.drinks && |r.drinks| == |t.drinks| + 1 && s.row in r.drinks
    ensures s.InsertIngredients? ==>
      t.drinkIngredients <= r.drinkIngredients && |r.drinkIngredients| == |t.drinkIngredients| + |s.rows|
    ensures s.DeleteDrink? ==> forall x :: x in r.drinks <==> x in t.drinks && x.id != s.id
    ensures s.DeleteIngredients? ==>
      forall x :: x in r.drinkIngredients <==> x in t.drinkIngredients && x.drinkId != s.drinkId
    ensures forall x :: x in r.drinks ==> x in t.drinks || s == InsertDrink(x)
    ensures forall x :: x in r.drinkIngredients ==> x in t.drinkIngredients || (s.InsertIngredients? && x in s.rows)
  {
    match s
    case InsertDrink(row) => t.(drinks := t.drinks + [row])
    case InsertIngredients(rows) => t.(drinkIngredients := t.drinkIngredients + rows)
    case DeleteDrink(id) => t.(drinks := WithoutDrink(t.drinks, id))
    case DeleteIngredients(id) => t.(drinkIngredients := WithoutIngredientsOf(t.drinkIngredients, id))
  }

  /** Some statement of `ss` inserts ingredient row `x`. */
  predicate InsertsIngredient(ss: seq<Stmt>, x: IngredientRow)
  {
    exists i :: 0 <= i < |ss| && ss[i].InsertIngredients? && x in ss[i].rows
  }

  /** The effect of a committed transaction: its statements in order. Every
      row it leaves was there before or is inserted by one of them. */
  function ApplyAll(t: Tables, ss: seq<Stmt>): (r: Tables)
    ensures forall x :: x in r.drinks ==> x in t.drinks || InsertDrink(x) in ss
    ensures forall x :: x in r.drinkIngredients ==> x in t.drinkIngredients || InsertsIngredient(ss, x)
    decreases |ss|
  {
    if ss == [] then t
    else
      var t1 := Apply(t, ss[0]);
      var r := ApplyAll(t1, ss[1..]);
      assert forall i :: 0 <= i < |ss| - 1 ==> ss[1..][i] == ss[i + 1];
      assert forall x :: InsertsIngredient(ss[1..], x) ==> InsertsIngredient(ss, x) by {
        forall x | InsertsIngredient(ss[1..], x) ensures InsertsIngredient(ss, x) {
          var i :| 0 <= i < |ss| - 1 && ss[1..][i].InsertIngredients? && x in ss[1..][i].rows;
          assert ss[i + 1] == ss[1..][i];
        }
      }
      assert forall x :: ss[0].InsertIngredients? && x in ss[0].rows ==> InsertsIngredient(ss, x);
      r
  }

  lemma {:induction false} WithoutDrinkAppend(a: seq<DrinkRow>, b: seq<DrinkRow>, id: string)
    ensures WithoutDrink(a + b, id) == WithoutDrink(a, id) + WithoutDrink(b, id)
  {
    if a == [] {
      assert a + b == b;
    } else {
      assert (a + b)[0] == a[0];
      assert (a + b)[1..] == a[1..] + b;
      WithoutDrinkAppend(a[1..], b, id);
    }
  }

  lemma {:induction false} WithoutIngredientsAppend(a: seq<IngredientRow>, b: seq<IngredientRow>, id: string)
    ensures WithoutIngredientsOf(a + b, id) == WithoutIngredientsOf(a, id) + WithoutIngredientsOf(b, id)
  {
    if a == [] {
      assert a + b == b;
    } else {
      assert (a + b)[0] == a[0];
      assert (a + b)[1..] == a[1..] + b;
      WithoutIngredientsAppend(a[1..], b, id);
    }
  }

  /** Deleting an id no row carries leaves `drinks` as it was. */
  lemma {:induction false} WithoutDrinkAbsent(rows: seq<DrinkRow>, id: string)
    requires forall x :: x in rows ==> x.id != id
    ensures WithoutDrink(rows, id) == rows
  {
    if rows != [] {
      assert rows[0] in rows;
      assert forall x :: x in rows[1..] ==> x in rows;
      WithoutDrinkAbsent(rows[1..], id);
      assert [rows[0]] + rows[1..] == rows;
    }
  }

  /** Deleting the ingredients of an id no row carries changes nothing. */
  lemma {:induction false} WithoutIngredientsAbsent(rows: seq<IngredientRow>, id: string)
    requires forall x :: x in rows ==> x.drinkId != id
    ensures WithoutIngredientsOf(rows, id) == rows
  {
    if rows != [] {
      assert rows[0] in rows;
      assert forall x :: x in rows[1..] ==> x in rows;
      WithoutIngredientsAbsent(rows[1..], id);
      assert [rows[0]] + rows[1..] == rows;
    }
  }

  /** The steps of a transaction the database may fail: beginning it, the
      statement with a given index, committing it. */
  datatype Step = Begin | Exec(index: nat) | Commit

  /** The `*sql.DB` handle. */
  class Database {
    var tables: Tables
    /** How many transactions have been begun on this handle. */
    ghost var transactions: nat

    constructor (t: Tables)
      ensures tables == t && transactions == 0
    {
      tables := t;
      transactions := 0;
    }

    /** `db.Tx()`, i.e. `DB.Begin()`. */
    method Begin(fails: bool) returns (tx: Tx?, err: Option<Error>)
      modifies this`transactions
      ensures fails ==> tx == null && err == Some(DbError) && transactions == old(transactions)
      ensures !fails ==> err.None? && tx != null && fresh(tx) && tx.db == this
      ensures !fails ==> tx.staged == [] && !tx.done && transactions == old(transactions) + 1
    {
      if fails {
        return null, Some(DbError);
      }
      tx := new Tx(this);
      err := None;
      transactions := transactions + 1;
    }
  }

  /** A `*sql.Tx`: statements are staged until Commit applies them all. */
  class Tx {
    const db: Database
    var staged: seq<Stmt>
    var done: bool

    constructor (db: Database)
      ensures this.db == db && staged == [] && !done
    {
      this.db := db;
      staged := [];
      done := false;
    }

    /** `tx.Exec`: a statement that fails leaves nothing staged. */
    method Exec(s: Stmt, fails: bool) returns (err: Option<Error>)
      requires !done
      modifies this`staged
      ensures err == if fails then Some(DbError) else None
      ensures staged == if fails then old(staged) else old(staged) + [s]
    {
      if fails {
        err := Some(DbError);
      } else {
        staged := staged + [s];
        err := None;
      }
    }

    /** `tx.Commit`: all staged statements take effect, or none does. */
    method Commit(fails: bool) returns (err: Option<Error>)
      requires !done
      modifies this`done, db`tables
      ensures done && staged == old(staged)
      ensures err == if fails then Some(DbError) else None
      ensures db.tables == if fails then old(db.tables) else ApplyAll(old(db.tables), staged)
    {
      if fails {
        err := Some(DbError);
      } else {
        db.tables := ApplyAll(db.tables, staged);
        err := None;
      }
      done := true;
    }

    /** `tx.Rollback`: discards the staged statements; after Commit it does
        nothing (Go reports ErrTxDone, which drink.go ignores). */
    method Rollback()
      modifies this`done
      ensures done
    {
      done := true;
    }
  }
}
