/** Like-for-like matching: which rates may be compared with the booking, and
    when a cheaper one counts as a drop. */
module Matching {
  import opened Models

  function DropFloor(cfg: Settings, original: real): real {
    if cfg.floorAbs < original * cfg.floorPct then original * cfg.floorPct else cfg.floorAbs
  }

  // ---------------------------------------------------------------- room class

  const ROOM_CLASSES: seq<string> := [
    "presidential", "penthouse", "junior suite", "suite", "executive", "premium", "deluxe",
    "luxury", "superior", "comfort", "classic", "standard", "economy", "budget"]

  /** The ASCII characters a Python regular expression treats as whitespace. */
  predicate IsSpace(c: char) {
    c == ' ' || 9 as char <= c <= 13 as char || 28 as char <= c <= 31 as char
  }

  function DropSpaces(s: string): (r: string)
    ensures |r| <= |s|
    ensures r == "" || !IsSpace(r[0])
  {
    if s == "" then ""
    else if IsSpace(s[0]) then DropSpaces(s[1..])
    else s
  }

  /** Replace each run of whitespace by one blank. */
  function Collapse(s: string): string
    decreases |s|
  {
    if s == "" then ""
    else if IsSpace(s[0]) then " " + Collapse(DropSpaces(s))
    else [s[0]] + Collapse(s[1..])
  }

  function DropTrailing(s: string): string {
    if s == "" then ""
    else if IsSpace(s[|s| - 1]) then DropTrailing(s[..|s| - 1])
    else s
  }

  function Strip(s: string): string {
    DropTrailing(DropSpaces(s))
  }

  function LowerChar(c: char): char {
    if 'A' <= c <= 'Z' then (c as int + 32) as char else c
  }

  function Lower(s: string): (r: string)
    ensures |r| == |s| && forall i :: 0 <= i < |s| ==> r[i] == LowerChar(s[i])
  {
    seq(|s|, i requires 0 <= i < |s| => LowerChar(s[i]))
  }

  function Normalize(name: string): string {
    Lower(Strip(Collapse(name)))
  }

  predicate Contains(text: string, word: string) {
    |word| <= |text| && (text[..|word|] == word || (text != "" && Contains(text[1..], word)))
  }

  /** The first vocabulary word that occurs in the text. */
  function FirstClass(classes: seq<string>, text: string): Option<string> {
    if classes == [] then None
    else if Contains(text, classes[0]) then Some(classes[0])
    else FirstClass(classes[1..], text)
  }

  function RoomClass(name: Option<string>): Option<string> {
    if !Truthy(name) then None else FirstClass(ROOM_CLASSES, Normalize(name.value))
  }

  // ---------------------------------------------------------------- matching

  /** The rate stops being free to cancel sooner than the booking does. */
  predicate ShorterWindow(c: Candidate, j: Job) {
    j.terms.deadline.Some? && c.freeUntil.Some? && c.freeUntil.value.at < j.terms.deadline.value.at
  }

  predicate MatchesRoom(c: Candidate, j: Job) {
    var booked := RoomClass(j.terms.roomType);
    var found := RoomClass(c.room);
    if !c.refundable then false
    else if ShorterWindow(c, j) then false
    else if j.terms.board.Some? && c.board != j.terms.board then false
    else if Truthy(booked) && Truthy(found) && booked != found then false
    else if j.terms.adults.Some? && c.adults.Some? && c.adults != j.terms.adults then false
    else if j.terms.children.Some? && c.children.Some? && c.children != j.terms.children then false
    else true
  }

  function Eligible(cs: seq<Candidate>, j: Job): seq<Candidate> {
    if cs == [] then []
    else if MatchesRoom(cs[0], j) then [cs[0]] + Eligible(cs[1..], j)
    else Eligible(cs[1..], j)
  }

  /** The first of the cheapest, found by one scan from the left. */
  function Cheapest(cs: seq<Candidate>): Candidate
    requires cs != []
  {
    var last := cs[|cs| - 1];
    if |cs| == 1 then last
    else
      var best := Cheapest(cs[..|cs| - 1]);
      if last.price < best.price then last else best
  }

  function BestLikeForLike(cs: seq<Candidate>, j: Job): Option<Candidate> {
    var eligible := Eligible(cs, j);
    if eligible == [] then None else Some(Cheapest(eligible))
  }

  predicate IsActionableDrop(cfg: Settings, best: Option<Candidate>, j: Job) {
    best.Some? && best.value.price < j.terms.originalPrice - DropFloor(cfg, j.terms.originalPrice)
  }

  /** A drop the user cannot be sent to, while the link gate is on. */
  predicate Held(cfg: Settings, best: Option<Candidate>, j: Job) {
    IsActionableDrop(cfg, best, j) && cfg.requireLink && !Truthy(best.value.link)
  }

  /** A drop the user may be told about. */
  predicate ReachableDrop(cfg: Settings, best: Option<Candidate>, j: Job) {
    IsActionableDrop(cfg, best, j) && !Held(cfg, best, j)
  }
}
