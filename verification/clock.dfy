/** The readings of the wall clock one handler takes. The source calls
    `Date.now()` and `new Date()` where it needs them; the model receives one
    consistent reading per call instead. */
module Clock {

  datatype Now = Now(
    ms: int,           // Date.now()
    hour: int,         // new Date().getHours(), local time
    isoDate: string,   // new Date().toISOString().split('T')[0], a UTC date
    localTime: string, // new Date().toTimeString().split(' ')[0], "HH:MM:SS" local
    stamp: string      // SQLite datetime('now')
  )

  /** The first five characters of a time, `substring(0, 5)`: "HH:MM". */
  function HourMinute(time: string): (r: string)
    ensures |r| == if |time| < 5 then |time| else 5
    ensures r == time[..|r|]
  {
    if |time| <= 5 then time else time[..5]
  }
}
