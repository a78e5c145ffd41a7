/** The Messier numbers and their NGC or IC counterparts. */
module Messier {
  import opened Options

  datatype Alt = NGC(num: nat) | IC(num: nat)

  const LAST := 110

  /** The counterpart of a Messier number; M 40 and M 45 have none. */
  function AltOf(m: nat): Option<Alt> {
    if m <= 18 then Alt1(m)
    else if m <= 36 then Alt2(m)
    else if m <= 56 then Alt3(m)
    else if m <= 74 then Alt4(m)
    else if m <= 92 then Alt5(m)
    else Alt6(m)
  }

  function Alt1(m: nat): Option<Alt> {
    match m
    case 1 => Some(NGC(1952)) case 2 => Some(NGC(7089)) case 3 => Some(NGC(5272)) case 4 => Some(NGC(6121))
    case 5 => Some(NGC(5904)) case 6 => Some(NGC(6405)) case 7 => Some(NGC(6475)) case 8 => Some(NGC(6523))
    case 9 => Some(NGC(6333)) case 10 => Some(NGC(6254)) case 11 => Some(NGC(6705)) case 12 => Some(NGC(6218))
    case 13 => Some(NGC(6205)) case 14 => Some(NGC(6402)) case 15 => Some(NGC(7078)) case 16 => Some(NGC(6611))
    case 17 => Some(NGC(6618)) case 18 => Some(NGC(6613))
    case _ => None
  }

  function Alt2(m: nat): Option<Alt> {
    match m
    case 19 => Some(NGC(6273)) case 20 => Some(NGC(6514)) case 21 => Some(NGC(6531)) case 22 => Some(NGC(6656))
    case 23 => Some(NGC(6494)) case 24 => Some(IC(4715)) case 25 => Some(IC(4725)) case 26 => Some(NGC(6694))
    case 27 => Some(NGC(6853)) case 28 => Some(NGC(6626)) case 29 => Some(NGC(6913)) case 30 => Some(NGC(7099))
    case 31 => Some(NGC(224)) case 32 => Some(NGC(221)) case 33 => Some(NGC(598)) case 34 => Some(NGC(1039))
    case 35 => Some(NGC(2168)) case 36 => Some(NGC(1960))
    case _ => None
  }

  function Alt3(m: nat): Option<Alt> {
    match m
    case 37 => Some(NGC(2099)) case 38 => Some(NGC(1912)) case 39 => Some(NGC(7092)) case 41 => Some(NGC(2287))
    case 42 => Some(NGC(1976)) case 43 => Some(NGC(1982)) case 44 => Some(NGC(2632)) case 46 => Some(NGC(2437))
    case 47 => Some(NGC(2422)) case 48 => Some(NGC(2548)) case 49 => Some(NGC(4472)) case 50 => Some(NGC(2323))
    case 51 => Some(NGC(5194)) case 52 => Some(NGC(7654)) case 53 => Some(NGC(5024)) case 54 => Some(NGC(6715))
    case 55 => Some(NGC(6809)) case 56 => Some(NGC(6779))
    case _ => None
  }

  function Alt4(m: nat): Option<Alt> {
    match m
    case 57 => Some(NGC(6720)) case 58 => Some(NGC(4579)) case 59 => Some(NGC(4621)) case 60 => Some(NGC(4649))
    case 61 => Some(NGC(4303)) case 62 => Some(NGC(6266)) case 63 => Some(NGC(5055)) case 64 => Some(NGC(4826))
    case 65 => Some(NGC(3623)) case 66 => Some(NGC(3627)) case 67 => Some(NGC(2682)) case 68 => Some(NGC(4590))
    case 69 => Some(NGC(6637)) case 70 => Some(NGC(6681)) case 71 => Some(NGC(6838)) case 72 => Some(NGC(6981))
    case 73 => Some(NGC(6994)) case 74 => Some(NGC(628))
    case _ => None
  }

  function Alt5(m: nat): Option<Alt> {
    match m
    case 75 => Some(NGC(6864)) case 76 => Some(NGC(650)) case 77 => Some(NGC(1068)) case 78 => Some(NGC(2068))
    case 79 => Some(NGC(1904)) case 80 => Some(NGC(6093)) case 81 => Some(NGC(3031)) case 82 => Some(NGC(3034))
    case 83 => Some(NGC(5236)) case 84 => Some(NGC(4374)) case 85 => Some(NGC(4382)) case 86 => Some(NGC(4406))
    case 87 => Some(NGC(4486)) case 88 => Some(NGC(4501)) case 89 => Some(NGC(4552)) case 90 => Some(NGC(4569))
    case 91 => Some(NGC(4548)) case 92 => Some(NGC(6341))
    case _ => None
  }

  function Alt6(m: nat): Option<Alt> {
    match m
    case 93 => Some(NGC(2447)) case 94 => Some(NGC(4736)) case 95 => Some(NGC(3351)) case 96 => Some(NGC(3368))
    case 97 => Some(NGC(3587)) case 98 => Some(NGC(4192)) case 99 => Some(NGC(4254))
    case 100 => Some(NGC(4321)) case 101 => Some(NGC(5457)) case 102 => Some(NGC(5866))
    case 103 => Some(NGC(581)) case 104 => Some(NGC(4594)) case 105 => Some(NGC(3379))
    case 106 => Some(NGC(4258)) case 107 => Some(NGC(6171)) case 108 => Some(NGC(3556))
    case 109 => Some(NGC(3992)) case 110 => Some(NGC(205))
    case _ => None
  }

  /** The Messier number of an NGC or IC number, read off the same table from the other side. */
  function MessierOf(num: nat): nat {
    if num <= 2168 then Messier1(num)
    else if num <= 3992 then Messier2(num)
    else if num <= 4621 then Messier3(num)
    else if num <= 6218 then Messier4(num)
    else if num <= 6656 then Messier5(num)
    else Messier6(num)
  }

  function Messier1(num: nat): nat {
    match num
    case 205 => 110 case 221 => 32 case 224 => 31 case 581 => 103 case 598 => 33 case 628 => 74 case 650 => 76
    case 1039 => 34 case 1068 => 77 case 1904 => 79 case 1912 => 38 case 1952 => 1 case 1960 => 36
    case 1976 => 42 case 1982 => 43 case 2068 => 78 case 2099 => 37 case 2168 => 35
    case _ => 0
  }

  function Messier2(num: nat): nat {
    match num
    case 2287 => 41 case 2323 => 50 case 2422 => 47 case 2437 => 46 case 2447 => 93 case 2548 => 48
    case 2632 => 44 case 2682 => 67 case 3031 => 81 case 3034 => 82 case 3351 => 95 case 3368 => 96
    case 3379 => 105 case 3556 => 108 case 3587 => 97 case 3623 => 65 case 3627 => 66 case 3992 => 109
    case _ => 0
  }

  function Messier3(num: nat): nat {
    match num
    case 4192 => 98 case 4254 => 99 case 4258 => 106 case 4303 => 61 case 4321 => 100 case 4374 => 84
    case 4382 => 85 case 4406 => 86 case 4472 => 49 case 4486 => 87 case 4501 => 88 case 4548 => 91
    case 4552 => 89 case 4569 => 90 case 4579 => 58 case 4590 => 68 case 4594 => 104 case 4621 => 59
    case _ => 0
  }

  function Messier4(num: nat): nat {
    match num
    case 4649 => 60 case 4715 => 24 case 4725 => 25 case 4736 => 94 case 4826 => 64 case 5024 => 53
    case 5055 => 63 case 5194 => 51 case 5236 => 83 case 5272 => 3 case 5457 => 101 case 5866 => 102
    case 5904 => 5 case 6093 => 80 case 6121 => 4 case 6171 => 107 case 6205 => 13 case 6218 => 12
    case _ => 0
  }

  function Messier5(num: nat): nat {
    match num
    case 6254 => 10 case 6266 => 62 case 6273 => 19 case 6333 => 9 case 6341 => 92 case 6402 => 14
    case 6405 => 6 case 6475 => 7 case 6494 => 23 case 6514 => 20 case 6523 => 8 case 6531 => 21
    case 6611 => 16 case 6613 => 18 case 6618 => 17 case 6626 => 28 case 6637 => 69 case 6656 => 22
    case _ => 0
  }

  function Messier6(num: nat): nat {
    match num
    case 6681 => 70 case 6694 => 26 case 6705 => 11 case 6715 => 54 case 6720 => 57 case 6779 => 56
    case 6809 => 55 case 6838 => 71 case 6853 => 27 case 6864 => 75 case 6913 => 29 case 6981 => 72
    case 6994 => 73 case 7078 => 15 case 7089 => 2 case 7092 => 39 case 7099 => 30 case 7654 => 52
    case _ => 0
  }

  predicate BothWays(a: Option<Alt>, m: nat) {
    a.Some? ==> 1 <= m <= LAST && MessierOf(a.value.num) == m
  }

  lemma BothWays1(m: nat)
    ensures BothWays(Alt1(m), m)
  {
  }

  lemma BothWays2(m: nat)
    ensures BothWays(Alt2(m), m)
  {
  }

  lemma BothWays3(m: nat)
    ensures BothWays(Alt3(m), m)
  {
  }

  lemma BothWays4(m: nat)
    ensures BothWays(Alt4(m), m)
  {
  }

  lemma BothWays5(m: nat)
    ensures BothWays(Alt5(m), m)
  {
  }

  lemma BothWays6(m: nat)
    ensures BothWays(Alt6(m), m)
  {
  }

  /** No counterpart is listed twice, so the cross-reference goes both ways. */
  lemma Unambiguous(m: nat)
    ensures BothWays(AltOf(m), m)
  {
    BothWays1(m);
    BothWays2(m);
    BothWays3(m);
    BothWays4(m);
    BothWays5(m);
    BothWays6(m);
  }
}
