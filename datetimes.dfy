/**
 * `date_and_times` of `woklib/util.py`: a page's meta dictionary may give a
 * `date`, a `time` (possibly as a number of seconds) and a `datetime`; the
 * function fills in the missing parts from one another and rewrites the
 * three entries in place.
 */
module DateTimes {
  import opened Wrappers

  datatype Date = Date(year: int, month: int, day: int)

  /** A `datetime.time`; `tzinfo` is an opaque label, `None` for naive times. */
  datatype Time = Time(hour: int, minute: int, second: int, microsecond: int, tzinfo: Option<string>)

  /**
   * A value of the meta dictionary, as far as this function tells values
   * apart. `DateTimeV` is a `datetime`, which is also a `date`; `BoolV` is
   * a `bool`, which is also an `int`; `IntV` is a Python 2 `int` (a machine
   * word) and `LongV` a `long`, such as a YAML integer too large for one,
   * which is not an `int`; `OtherV` is any other value.
   */
  datatype Value =
    | NoneV
    | BoolV(b: bool)
    | IntV(n: int)
    | LongV(n: int)
    | DateV(date: Date)
    | TimeV(time: Time)
    | DateTimeV(date: Date, time: Time)
    | OtherV(text: string)

  /** The exceptions the function can raise. */
  datatype Error = ValueError | AttributeError

  type MetaMap = map<string, Value>

  /** The state of the dictionary when the function returns or raises. */
  datatype Outcome = Outcome(meta: MetaMap, error: Option<Error>)

  /** `datetime.time()`, the time of midnight. */
  const Midnight: Time := Time(0, 0, 0, 0, None)

  /** `meta.get(key)`. */
  function Get(meta: MetaMap, key: string): Value {
    if key in meta then meta[key] else NoneV
  }

  /** The (year, month, day) attributes, which dates and datetimes have. */
  function DateAttrs(v: Value): Option<Date> {
    match v
    case DateV(d) => Some(d)
    case DateTimeV(d, _) => Some(d)
    case _ => None
  }

  /** The (hour, minute, second, microsecond, tzinfo) attributes, which times and datetimes have. */
  function TimeAttrs(v: Value): Option<Time> {
    match v
    case TimeV(t) => Some(t)
    case DateTimeV(_, t) => Some(t)
    case _ => None
  }

  /** `isinstance(v, int)`, with the value it stands for; a `long` is not an `int`. */
  function AsInt(v: Value): Option<int> {
    match v
    case IntV(n) => Some(n)
    case BoolV(b) => Some(if b then 1 else 0)
    case _ => None
  }

  /** The date part once the first block has run: taken from `datetime` only when missing. */
  function DatePart(meta: MetaMap): Value {
    var d := Get(meta, "date");
    if "datetime" in meta && d.NoneV? then
      match meta["datetime"]
      case DateTimeV(dd, _) => DateV(dd)   // meta['datetime'].date()
      case DateV(dd) => DateV(dd)          // the date itself
      case _ => d
    else d
  }

  /** The time part once the first block has run: taken only from a `datetime`. */
  function TimePart(meta: MetaMap): Value {
    var t := Get(meta, "time");
    if "datetime" in meta && t.NoneV? && meta["datetime"].DateTimeV? then
      TimeV(meta["datetime"].time.(tzinfo := None))   // .time() drops the tzinfo
    else t
  }

  /**
   * `time(t // 3600, (t // 60) % 60, t % 60)` with Python's floor division;
   * the constructor refuses an hour outside 0..23.
   */
  function SplitSeconds(t: int): Result<Time, Error> {
    var hours := t / 3600;
    var minutes := (t / 60) % 60;
    var seconds := t % 60;
    if 0 <= hours < 24 then Ok(Time(hours, minutes, seconds, 0, None)) else Err(ValueError)
  }

  /** The time part after the integer-seconds branch. */
  function Converted(t: Value): Result<Value, Error> {
    match AsInt(t)
    case Some(n) =>
      (match SplitSeconds(n)
       case Ok(tm) => Ok(TimeV(tm))
       case Err(e) => Err(e))
    case None => Ok(t)
  }

  /** The new `datetime` entry made from the two parts. */
  function Combine(d: Value, t: Value): Result<Value, Error> {
    if !d.NoneV? && !t.NoneV? then
      match (DateAttrs(d), TimeAttrs(t))
      case (Some(dd), Some(tt)) => Ok(DateTimeV(dd, tt))
      case _ => Err(AttributeError)
    else if !d.NoneV? then
      match DateAttrs(d)
      case Some(dd) => Ok(DateTimeV(dd, Midnight))
      case None => Err(AttributeError)
    else Ok(NoneV)
  }

  /**
   * The whole function. A `ValueError` from the time constructor leaves the
   * dictionary untouched; an `AttributeError` from the final constructor
   * comes after `date` and `time` have been stored.
   */
  function DateAndTimesOf(meta: MetaMap): Outcome {
    var d := DatePart(meta);
    match Converted(TimePart(meta))
    case Err(e) => Outcome(meta, Some(e))
    case Ok(t) =>
      var stored := meta["date" := d]["time" := t];
      match Combine(d, t)
      case Ok(dt) => Outcome(stored["datetime" := dt], None)
      case Err(e) => Outcome(stored, Some(e))
  }

  /** A page's meta dictionary, which the function updates in place. */
  class MetaDict {
    var entries: MetaMap

    constructor (entries: MetaMap)
      ensures this.entries == entries
    {
      this.entries := entries;
    }

    /** `date_and_times(meta)`; the error is the exception it raises, if any. */
    method DateAndTimes() returns (error: Option<Error>)
      modifies this
      ensures Outcome(entries, error) == DateAndTimesOf(old(entries))
    {
      var datePart := Get(entries, "date");
      var timePart := Get(entries, "time");

      if "datetime" in entries {
        if datePart.NoneV? {
          match entries["datetime"] {
            case DateTimeV(dd, _) => datePart := DateV(dd);
            case DateV(dd) => datePart := DateV(dd);
            case _ =>
          }
        }
        if timePart.NoneV? && entries["datetime"].DateTimeV? {
          timePart := TimeV(entries["datetime"].time.(tzinfo := None));
        }
      }

      var seconds := AsInt(timePart);
      if seconds.Some? {
        var t := seconds.value;
        var hours := t / 3600;
        if !(0 <= hours < 24) {
          return Some(ValueError);
        }
        timePart := TimeV(Time(hours, (t / 60) % 60, t % 60, 0, None));
      }

      entries := entries["date" := datePart];
      entries := entries["time" := timePart];
      if !datePart.NoneV? && !timePart.NoneV? {
        var dd, tt := DateAttrs(datePart), TimeAttrs(timePart);
        if dd.None? || tt.None? {
          return Some(AttributeError);
        }
        entries := entries["datetime" := DateTimeV(dd.value, tt.value)];
      } else if !datePart.NoneV? {
        var dd := DateAttrs(datePart);
        if dd.None? {
          return Some(AttributeError);
        }
        entries := entries["datetime" := DateTimeV(dd.value, Midnight)];
      } else {
        entries := entries["datetime" := NoneV];
      }
      return None;
    }
  }

  // ---------------------------------------------------------------------
  // Properties
  // ---------------------------------------------------------------------

  /**
   * A number of seconds is accepted exactly when it lies within one day, and
   * then it is split into hours, minutes and seconds that add back up to it.
   */
  lemma SecondsSplit(t: int)
    ensures SplitSeconds(t).Ok? <==> 0 <= t < 86400
    ensures SplitSeconds(t).Ok? ==>
              var tm := SplitSeconds(t).value;
              && tm.hour * 3600 + tm.minute * 60 + tm.second == t
              && 0 <= tm.hour < 24 && 0 <= tm.minute < 60 && 0 <= tm.second < 60
              && tm.microsecond == 0 && tm.tzinfo.None?
  {
    var q := t / 60;
    assert t == q * 60 + t % 60;
    assert q == (q / 60) * 60 + q % 60;
    assert t / 3600 == q / 60;
  }

  /** Seconds out of range raise before anything is stored. */
  lemma OutOfRangeUntouched(meta: MetaMap)
    ensures DateAndTimesOf(meta).error == Some(ValueError) <==>
              exists n :: AsInt(TimePart(meta)) == Some(n) && !(0 <= n < 86400)
    ensures DateAndTimesOf(meta).error == Some(ValueError) ==> DateAndTimesOf(meta).meta == meta
  {
    match AsInt(TimePart(meta)) {
      case Some(n) => SecondsSplit(n);
      case None =>
    }
  }

  /** A date or time that is present is kept as it was (a time given as seconds is converted). */
  lemma PresentPartsKept(meta: MetaMap)
    ensures var o := DateAndTimesOf(meta);
      && (o.error != Some(ValueError) && !Get(meta, "date").NoneV? ==> o.meta["date"] == meta["date"])
      && ((o.error != Some(ValueError) && !Get(meta, "time").NoneV? && AsInt(meta["time"]).None?)
            ==> o.meta["time"] == meta["time"])
  {
  }

  /**
   * A missing time is filled only from a `datetime`, never from a plain
   * date, and then it is that datetime's time without its `tzinfo`.
   */
  lemma TimeOnlyFromDateTime(meta: MetaMap)
    requires Get(meta, "time").NoneV?
    ensures var o := DateAndTimesOf(meta);
      o.error != Some(ValueError) ==>
        && (o.meta["time"].NoneV? <==> !("datetime" in meta && meta["datetime"].DateTimeV?))
        && ("datetime" in meta && meta["datetime"].DateTimeV? ==>
              o.meta["time"] == TimeV(meta["datetime"].time.(tzinfo := None)))
  {
  }

  /**
   * A missing date is filled from `datetime`: the date of a datetime, a plain
   * date itself, and nothing from any other value or when there is none.
   */
  lemma DateFilledFromDateTime(meta: MetaMap)
    requires Get(meta, "date").NoneV?
    ensures var o := DateAndTimesOf(meta);
      o.error != Some(ValueError) ==>
        o.meta["date"] == (match Get(meta, "datetime")
                           case DateTimeV(dd, _) => DateV(dd)
                           case DateV(dd) => DateV(dd)
                           case _ => NoneV)
  {
  }

  /**
   * Without an error, `datetime` ends up as the combination of both parts,
   * as midnight of the date when there is no time, and as `None` when there
   * is no date.
   */
  lemma CombinationRules(meta: MetaMap)
    ensures var o := DateAndTimesOf(meta);
      o.error.None? ==> (
        && "date" in o.meta && "time" in o.meta && "datetime" in o.meta
        && var d, t, dt := o.meta["date"], o.meta["time"], o.meta["datetime"];
        && (!d.NoneV? && !t.NoneV? ==> dt == DateTimeV(DateAttrs(d).value, TimeAttrs(t).value))
        && (!d.NoneV? && t.NoneV? ==> dt == DateTimeV(DateAttrs(d).value, Midnight))
        && (d.NoneV? ==> dt == NoneV))
  {
  }

  /** The attribute error leaves `date` and `time` stored and `datetime` as it was. */
  lemma AttributeErrorPartial(meta: MetaMap)
    ensures var o := DateAndTimesOf(meta);
      o.error == Some(AttributeError) ==>
        && o.meta == meta["date" := DatePart(meta)]["time" := o.meta["time"]]
        && ("datetime" in meta <==> "datetime" in o.meta)
        && ("datetime" in meta ==> o.meta["datetime"] == meta["datetime"])
  {
  }

  /**
   * What a successful run leaves for the next one to change: a date without
   * a time has gained a midnight `datetime`, from which the next run takes a
   * midnight time.
   */
  function Settled(m: MetaMap): MetaMap
    requires "date" in m && "time" in m
  {
    if m["time"].NoneV? && !m["date"].NoneV? then m["time" := TimeV(Midnight)] else m
  }

  /** Running the function again after a success only fills in that midnight time. */
  lemma Rerun(meta: MetaMap)
    ensures var o := DateAndTimesOf(meta);
      o.error.None? ==> DateAndTimesOf(o.meta) == Outcome(Settled(o.meta), None)
  {
    var o := DateAndTimesOf(meta);
    if o.error.None? {
      var m := o.meta;
      assert AsInt(m["time"]).None?;
      assert DatePart(m) == m["date"];
      if m["time"].NoneV? && !m["date"].NoneV? {
        assert TimePart(m) == TimeV(Midnight);
        assert m["date" := m["date"]]["time" := TimeV(Midnight)]["datetime" := m["datetime"]]
            == m["time" := TimeV(Midnight)];
      } else {
        assert TimePart(m) == m["time"];
        assert m["date" := m["date"]]["time" := m["time"]]["datetime" := m["datetime"]] == m;
      }
    }
  }

  /** From the second run on, the function changes nothing. */
  lemma SettledIsFixed(meta: MetaMap)
    ensures var o := DateAndTimesOf(meta);
      o.error.None? ==> DateAndTimesOf(Settled(o.meta)) == Outcome(Settled(o.meta), None)
  {
    var o := DateAndTimesOf(meta);
    if o.error.None? {
      Rerun(meta);
      var m := Settled(o.meta);
      assert AsInt(m["time"]).None?;
      assert DatePart(m) == m["date"];
      assert TimePart(m) == m["time"];
      assert m["date" := m["date"]]["time" := m["time"]]["datetime" := m["datetime"]] == m;
    }
  }
}
