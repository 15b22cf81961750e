/**
 CacheService: a value in memory over a file. The file outlives the process, the memory does not.
 `trail` records what both hold at every await, that is, at every point where the process may stop.
 */
module Cache {
  import opened Wrappers

  /** A file that a stopped or failed write left behind does not parse. */
  datatype File<+T> = Absent | Unparsable | Stored(value: T)

  datatype Cell<+T> = Cell(memory: Option<T>, file: File<T>)

  /** How far mkdir and writeFile get before they resolve or reject. */
  datatype Write = NotStarted | Torn | Written

  /** getCache: read the file once; a missing, unreadable or unparsable file reads as the default. */
  function Loaded<T>(cell: Cell<T>, readable: bool, default: T): Cell<T>
  {
    if cell.memory.Some? then cell
    else cell.(memory := Some(if readable && cell.file.Stored? then cell.file.value else default))
  }

  /** setCache: memory first, then the file, which writeFile truncates before it fills it. */
  function Saved<T>(cell: Cell<T>, value: T, write: Write): seq<Cell<T>>
  {
    var cleared := [Cell(Some(value), cell.file)];
    match write
    case NotStarted => cleared
    case Torn => cleared + [Cell(Some(value), Unparsable)]
    case Written => cleared + [Cell(Some(value), Unparsable), Cell(Some(value), Stored(value))]
  }

  /** deleteCache: memory first, then the file; a rejected unlink is swallowed. */
  function Deleted<T>(cell: Cell<T>, unlinked: bool): seq<Cell<T>>
  {
    [Cell(None, cell.file), Cell(None, if unlinked then Absent else cell.file)]
  }

  /** Whatever becomes of the file, a value that was set is read from then on; a full write passes through a torn one.
      */
  lemma SetIsRead<T>(cell: Cell<T>, value: T, write: Write, readable: bool, default: T)
    ensures forall state <- Saved(cell, value, write) :: Loaded(state, readable, default).memory == Some(value)
    ensures Last(Saved(cell, value, write)).file
         == match write case NotStarted => cell.file case Torn => Unparsable case Written => Stored(value)
    ensures Saved(cell, value, NotStarted) < Saved(cell, value, Torn) < Saved(cell, value, Written)
  {}

  /** A process that starts over a file reads what was written last, or the default if that cannot be read. */
  lemma RestartReads<T>(file: File<T>, readable: bool, default: T)
    ensures Loaded(Cell(None, file), readable, default)
         == Cell(Some(if readable && file.Stored? then file.value else default), file)
  {}

  /** After a delete nothing is in memory, and the file is gone unless the unlink was rejected. */
  lemma DeletedIsGone<T>(cell: Cell<T>, unlinked: bool)
    ensures forall state <- Deleted(cell, unlinked) :: state.memory.None?
    ensures Last(Deleted(cell, unlinked)).file == if unlinked then Absent else cell.file
    ensures Deleted(cell, unlinked)[0].file == cell.file
  {}

  class CacheService<T> {
    var cache: Option<T>
    var file: File<T>
    const default: T
    ghost var trail: seq<Cell<T>>

    /** A new process over the file the last one left. */
    constructor (default: T, file: File<T>)
      ensures State() == Cell(None, file) && this.default == default && trail == []
    {
      this.cache := None;
      this.file := file;
      this.default := default;
      this.trail := [];
    }

    ghost function State(): Cell<T>
      reads this
    {
      Cell(cache, file)
    }

    method GetCache(readable: bool) returns (value: T)
      modifies this
      ensures State() == Loaded(old(State()), readable, default) && cache == Some(value)
      ensures trail == old(trail) + [State()]
    {
      if cache.None? {
        cache := Some(if readable && file.Stored? then file.value else default);
      }
      value := cache.value;
      trail := trail + [State()];
    }

    /** `written` is false when the returned promise rejects. */
    method SetCache(value: T, write: Write) returns (written: bool)
      modifies this
      ensures State() == Last(Saved(old(State()), value, write)) && written == write.Written?
      ensures trail == old(trail) + Saved(old(State()), value, write)
    {
      ghost var before := State();
      cache := Some(value);
      trail := trail + [State()];
      if write != NotStarted {
        file := Unparsable;
        trail := trail + [State()];
      }
      if write == Written {
        file := Stored(value);
        trail := trail + [State()];
      }
      written := write == Written;
      assert trail == old(trail) + Saved(before, value, write);
    }

    method DeleteCache(unlinked: bool)
      modifies this
      ensures State() == Last(Deleted(old(State()), unlinked))
      ensures trail == old(trail) + Deleted(old(State()), unlinked)
    {
      cache := None;
      trail := trail + [State()];
      if unlinked {
        file := Absent;
      }
      trail := trail + [State()];
    }
  }
}
