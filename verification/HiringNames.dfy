// The names the generator draws from: their emails never collide, so no email is ever drawn twice.

module HiringNames {
  import opened Texts
  import opened HiringMock

  const FIRST_A: seq<string> := ["Lucía", "Mateo", "Carmen", "Hugo"]
  const FIRST_B: seq<string> := ["Paula", "Daniel", "Sofía", "Álvaro"]
  const FIRST_C: seq<string> := ["Marta", "Pablo", "Julia", "Adrián"]
  const FIRST_D: seq<string> := ["Elena", "Diego", "Noa", "Iker"]
  const FIRST_E: seq<string> := ["Claudia", "Rubén", "Alba", "Sergio"]
  const FIRST_F: seq<string> := ["Irene", "Marcos", "Laura", "Nicolás"]
  const FIRST_G: seq<string> := ["Ana", "Javier", "Sara", "David"]
  const FIRST_H: seq<string> := ["Eva", "Gonzalo", "Inés", "Bruno"]
  const FIRST_I: seq<string> := ["Rocío", "Tomás", "Celia", "Óscar"]
  const FIRST_J: seq<string> := ["Vera", "Andrés", "Leire", "Manuel"]
  const FIRST_K: seq<string> := ["Aitana", "Raúl", "Blanca", "Víctor"]
  const FIRST_L: seq<string> := ["Marina", "Enrique", "Olivia", "Ismael"]
  const FIRST_NAMES :=
    FIRST_A + FIRST_B + FIRST_C + FIRST_D + FIRST_E + FIRST_F
    + FIRST_G + FIRST_H + FIRST_I + FIRST_J + FIRST_K + FIRST_L

  const LAST_A: seq<string> := ["Fernández", "García", "Martínez", "López"]
  const LAST_B: seq<string> := ["Sánchez", "Pérez", "Gómez", "Ruiz"]
  const LAST_C: seq<string> := ["Díaz", "Moreno", "Muñoz", "Álvarez"]
  const LAST_D: seq<string> := ["Romero", "Navarro", "Torres", "Domínguez"]
  const LAST_E: seq<string> := ["Vázquez", "Ramos", "Gil", "Serrano"]
  const LAST_F: seq<string> := ["Blanco", "Molina", "Morales", "Ortega"]
  const LAST_G: seq<string> := ["Delgado", "Castro", "Ortiz", "Rubio"]
  const LAST_H: seq<string> := ["Marín", "Sanz", "Iglesias", "Medina"]
  const LAST_I: seq<string> := ["Garrido", "Cortés", "Castillo", "Santos"]
  const LAST_J: seq<string> := ["Lozano", "Guerrero", "Cano", "Prieto"]
  const LAST_K: seq<string> := ["Méndez", "Calvo", "Cruz", "Gallego"]
  const LAST_L: seq<string> := ["Vidal", "León", "Herrera", "Peña"]
  const LAST_M: seq<string> := ["Flores", "Cabrera", "Campos", "Vega"]
  const LAST_N: seq<string> := ["Fuentes", "Carrasco"]
  const LAST_NAMES :=
    LAST_A + LAST_B + LAST_C + LAST_D + LAST_E + LAST_F + LAST_G
    + LAST_H + LAST_I + LAST_J + LAST_K + LAST_L + LAST_M + LAST_N

  /** A number that tells the slugs of each list apart. */
  function Look(slug: string): int
    requires |slug| >= 3
  {
    3 * slug[0] as int + 6 * slug[2] as int + 13 * slug[|slug| - 1] as int + |slug|
  }

  ghost predicate Looks(name: string, look: int) {
    '.' !in Slug(name) && |Slug(name)| >= 3 && Look(Slug(name)) == look
  }

  lemma LookIs(name: string, look: int)
    requires |name| >= 3 && '.' !in name
    requires 3 * LowerChar(Translate(name[0])) as int + 6 * LowerChar(Translate(name[2])) as int
             + 13 * LowerChar(Translate(name[|name| - 1])) as int + |name| == look
    ensures Looks(name, look)
  {
  }

  ghost predicate AllLook(names: seq<string>, looks: seq<int>) {
    |names| == |looks| && forall i :: 0 <= i < |names| ==> Looks(names[i], looks[i])
  }

  lemma Together(names: seq<string>, looks: seq<int>, more: seq<string>, moreLooks: seq<int>)
    returns (all: seq<string>, allLooks: seq<int>)
    requires AllLook(names, looks) && AllLook(more, moreLooks)
    ensures all == names + more && allLooks == looks + moreLooks && AllLook(all, allLooks)
  {
    all, allLooks := names + more, looks + moreLooks;
  }

  /** Names that look different have different slugs. */
  lemma LooksTell(names: seq<string>, looks: seq<int>)
    requires AllLook(names, looks) && forall i, j :: 0 <= i < j < |looks| ==> looks[i] != looks[j]
    ensures SlugsApart(names)
  {
  }

  const FIRST_LOOKS_A := [2184, 2471, 2417, 2377]
  const FIRST_LOOKS_B := [2304, 2370, 2223, 2448]
  const FIRST_LOOKS_C := [2277, 2372, 2232, 2411]
  const FIRST_LOOKS_D := [2175, 2354, 2176, 2407]
  const FIRST_LOOKS_E := [2147, 2365, 2144, 2478]
  const FIRST_LOOKS_F := [2239, 2512, 2292, 2426]
  const FIRST_LOOKS_G := [2137, 2514, 2294, 2313]
  const FIRST_LOOKS_H := [2149, 2419, 2420, 2444]
  const FIRST_LOOKS_I := [2384, 2502, 2211, 2414]
  const FIRST_LOOKS_J := [2303, 2392, 2272, 2397]
  const FIRST_LOOKS_K := [2254, 2452, 2143, 2436]
  const FIRST_LOOKS_L := [2278, 2307, 2230, 2379]
  const FIRST_LOOKS :=
    FIRST_LOOKS_A + FIRST_LOOKS_B + FIRST_LOOKS_C + FIRST_LOOKS_D + FIRST_LOOKS_E + FIRST_LOOKS_F
    + FIRST_LOOKS_G + FIRST_LOOKS_H + FIRST_LOOKS_I + FIRST_LOOKS_J + FIRST_LOOKS_K + FIRST_LOOKS_L

  lemma FirstA()
    ensures AllLook(FIRST_A, FIRST_LOOKS_A)
  {
    LookIs("Lucía", 2184);
    LookIs("Mateo", 2471);
    LookIs("Carmen", 2417);
    LookIs("Hugo", 2377);
  }

  lemma FirstB()
    ensures AllLook(FIRST_B, FIRST_LOOKS_B)
  {
    LookIs("Paula", 2304);
    LookIs("Daniel", 2370);
    LookIs("Sofía", 2223);
    LookIs("Álvaro", 2448);
  }

  lemma FirstC()
    ensures AllLook(FIRST_C, FIRST_LOOKS_C)
  {
    LookIs("Marta", 2277);
    LookIs("Pablo", 2372);
    LookIs("Julia", 2232);
    LookIs("Adrián", 2411);
  }

  lemma FirstD()
    ensures AllLook(FIRST_D, FIRST_LOOKS_D)
  {
    LookIs("Elena", 2175);
    LookIs("Diego", 2354);
    LookIs("Noa", 2176);
    LookIs("Iker", 2407);
  }

  lemma FirstE()
    ensures AllLook(FIRST_E, FIRST_LOOKS_E)
  {
    LookIs("Claudia", 2147);
    LookIs("Rubén", 2365);
    LookIs("Alba", 2144);
    LookIs("Sergio", 2478);
  }

  lemma FirstF()
    ensures AllLook(FIRST_F, FIRST_LOOKS_F)
  {
    LookIs("Irene", 2239);
    LookIs("Marcos", 2512);
    LookIs("Laura", 2292);
    LookIs("Nicolás", 2426);
  }

  lemma FirstG()
    ensures AllLook(FIRST_G, FIRST_LOOKS_G)
  {
    LookIs("Ana", 2137);
    LookIs("Javier", 2514);
    LookIs("Sara", 2294);
    LookIs("David", 2313);
  }

  lemma FirstH()
    ensures AllLook(FIRST_H, FIRST_LOOKS_H)
  {
    LookIs("Eva", 2149);
    LookIs("Gonzalo", 2419);
    LookIs("Inés", 2420);
    LookIs("Bruno", 2444);
  }

  lemma FirstI()
    ensures AllLook(FIRST_I, FIRST_LOOKS_I)
  {
    LookIs("Rocío", 2384);
    LookIs("Tomás", 2502);
    LookIs("Celia", 2211);
    LookIs("Óscar", 2414);
  }

  lemma FirstJ()
    ensures AllLook(FIRST_J, FIRST_LOOKS_J)
  {
    LookIs("Vera", 2303);
    LookIs("Andrés", 2392);
    LookIs("Leire", 2272);
    LookIs("Manuel", 2397);
  }

  lemma FirstK()
    ensures AllLook(FIRST_K, FIRST_LOOKS_K)
  {
    LookIs("Aitana", 2254);
    LookIs("Raúl", 2452);
    LookIs("Blanca", 2143);
    LookIs("Víctor", 2436);
  }

  lemma FirstL()
    ensures AllLook(FIRST_L, FIRST_LOOKS_L)
  {
    LookIs("Marina", 2278);
    LookIs("Enrique", 2307);
    LookIs("Olivia", 2230);
    LookIs("Ismael", 2379);
  }

  /** Where a look stands in the list. */
  function FirstPlace(look: int): int {
    if look == 2184 then 0 else if look == 2471 then 1 else if look == 2417 then 2
    else if look == 2377 then 3 else if look == 2304 then 4 else if look == 2370 then 5
    else if look == 2223 then 6 else if look == 2448 then 7 else if look == 2277 then 8
    else if look == 2372 then 9 else if look == 2232 then 10 else if look == 2411 then 11
    else if look == 2175 then 12 else if look == 2354 then 13 else if look == 2176 then 14
    else if look == 2407 then 15 else if look == 2147 then 16 else if look == 2365 then 17
    else if look == 2144 then 18 else if look == 2478 then 19 else if look == 2239 then 20
    else if look == 2512 then 21 else if look == 2292 then 22 else if look == 2426 then 23
    else if look == 2137 then 24 else if look == 2514 then 25 else if look == 2294 then 26
    else if look == 2313 then 27 else if look == 2149 then 28 else if look == 2419 then 29
    else if look == 2420 then 30 else if look == 2444 then 31 else if look == 2384 then 32
    else if look == 2502 then 33 else if look == 2211 then 34 else if look == 2414 then 35
    else if look == 2303 then 36 else if look == 2392 then 37 else if look == 2272 then 38
    else if look == 2397 then 39 else if look == 2254 then 40 else if look == 2452 then 41
    else if look == 2143 then 42 else if look == 2436 then 43 else if look == 2278 then 44
    else if look == 2307 then 45 else if look == 2230 then 46 else if look == 2379 then 47
    else -1
  }

  lemma FirstPlacesLow(i: nat)
    requires i < 24
    ensures FirstPlace(FIRST_LOOKS[i]) == i
  {
  }

  lemma FirstPlacesHigh(i: nat)
    requires 24 <= i < |FIRST_LOOKS|
    ensures FirstPlace(FIRST_LOOKS[i]) == i
  {
  }

  lemma FirstLooksApart()
    ensures forall i, j :: 0 <= i < j < |FIRST_LOOKS| ==> FIRST_LOOKS[i] != FIRST_LOOKS[j]
  {
    forall i | 0 <= i < |FIRST_LOOKS|
      ensures FirstPlace(FIRST_LOOKS[i]) == i
    {
      if i < 24 {
        FirstPlacesLow(i);
      } else {
        FirstPlacesHigh(i);
      }
    }
  }

  lemma FirstNamesApart()
    ensures SlugsApart(FIRST_NAMES)
  {
    FirstA();
    FirstB();
    FirstC();
    FirstD();
    FirstE();
    FirstF();
    FirstG();
    FirstH();
    FirstI();
    FirstJ();
    FirstK();
    FirstL();
    var names, looks := FIRST_A, FIRST_LOOKS_A;
    names, looks := Together(names, looks, FIRST_B, FIRST_LOOKS_B);
    names, looks := Together(names, looks, FIRST_C, FIRST_LOOKS_C);
    names, looks := Together(names, looks, FIRST_D, FIRST_LOOKS_D);
    names, looks := Together(names, looks, FIRST_E, FIRST_LOOKS_E);
    names, looks := Together(names, looks, FIRST_F, FIRST_LOOKS_F);
    names, looks := Together(names, looks, FIRST_G, FIRST_LOOKS_G);
    names, looks := Together(names, looks, FIRST_H, FIRST_LOOKS_H);
    names, looks := Together(names, looks, FIRST_I, FIRST_LOOKS_I);
    names, looks := Together(names, looks, FIRST_J, FIRST_LOOKS_J);
    names, looks := Together(names, looks, FIRST_K, FIRST_LOOKS_K);
    names, looks := Together(names, looks, FIRST_L, FIRST_LOOKS_L);
    FirstLooksApart();
    LooksTell(FIRST_NAMES, FIRST_LOOKS);
  }

  const LAST_LOOKS_A := [2585, 2260, 2605, 2587]
  const LAST_LOOKS_B := [2598, 2611, 2554, 2562]
  const LAST_LOOKS_C := [2472, 2460, 2578, 2592]
  const LAST_LOOKS_D := [2445, 2488, 2533, 2549]
  const LAST_LOOKS_E := [2679, 2496, 2364, 2479]
  const LAST_LOOKS_F := [2325, 2242, 2513, 2296]
  const LAST_LOOKS_G := [2398, 2436, 2620, 2378]
  const LAST_LOOKS_H := [2446, 2595, 2466, 2194]
  const LAST_LOOKS_I := [2443, 2482, 2438, 2506]
  const LAST_LOOKS_J := [2505, 2366, 2404, 2415]
  const LAST_LOOKS_K := [2579, 2393, 2589, 2407]
  const LAST_LOOKS_L := [2363, 2424, 2264, 2261]
  const LAST_LOOKS_M := [2473, 2153, 2452, 2237]
  const LAST_LOOKS_N := [2414, 2432]
  const LAST_LOOKS :=
    LAST_LOOKS_A + LAST_LOOKS_B + LAST_LOOKS_C + LAST_LOOKS_D + LAST_LOOKS_E + LAST_LOOKS_F + LAST_LOOKS_G
    + LAST_LOOKS_H + LAST_LOOKS_I + LAST_LOOKS_J + LAST_LOOKS_K + LAST_LOOKS_L + LAST_LOOKS_M + LAST_LOOKS_N

  lemma LastA()
    ensures AllLook(LAST_A, LAST_LOOKS_A)
  {
    LookIs("Fernández", 2585);
    LookIs("García", 2260);
    LookIs("Martínez", 2605);
    LookIs("López", 2587);
  }

  lemma LastB()
    ensures AllLook(LAST_B, LAST_LOOKS_B)
  {
    LookIs("Sánchez", 2598);
    LookIs("Pérez", 2611);
    LookIs("Gómez", 2554);
    LookIs("Ruiz", 2562);
  }

  lemma LastC()
    ensures AllLook(LAST_C, LAST_LOOKS_C)
  {
    LookIs("Díaz", 2472);
    LookIs("Moreno", 2460);
    LookIs("Muñoz", 2578);
    LookIs("Álvarez", 2592);
  }

  lemma LastD()
    ensures AllLook(LAST_D, LAST_LOOKS_D)
  {
    LookIs("Romero", 2445);
    LookIs("Navarro", 2488);
    LookIs("Torres", 2533);
    LookIs("Domínguez", 2549);
  }

  lemma LastE()
    ensures AllLook(LAST_E, LAST_LOOKS_E)
  {
    LookIs("Vázquez", 2679);
    LookIs("Ramos", 2496);
    LookIs("Gil", 2364);
    LookIs("Serrano", 2479);
  }

  lemma LastF()
    ensures AllLook(LAST_F, LAST_LOOKS_F)
  {
    LookIs("Blanco", 2325);
    LookIs("Molina", 2242);
    LookIs("Morales", 2513);
    LookIs("Ortega", 2296);
  }

  lemma LastG()
    ensures AllLook(LAST_G, LAST_LOOKS_G)
  {
    LookIs("Delgado", 2398);
    LookIs("Castro", 2436);
    LookIs("Ortiz", 2620);
    LookIs("Rubio", 2378);
  }

  lemma LastH()
    ensures AllLook(LAST_H, LAST_LOOKS_H)
  {
    LookIs("Marín", 2446);
    LookIs("Sanz", 2595);
    LookIs("Iglesias", 2466);
    LookIs("Medina", 2194);
  }

  lemma LastI()
    ensures AllLook(LAST_I, LAST_LOOKS_I)
  {
    LookIs("Garrido", 2443);
    LookIs("Cortés", 2482);
    LookIs("Castillo", 2438);
    LookIs("Santos", 2506);
  }

  lemma LastJ()
    ensures AllLook(LAST_J, LAST_LOOKS_J)
  {
    LookIs("Lozano", 2505);
    LookIs("Guerrero", 2366);
    LookIs("Cano", 2404);
    LookIs("Prieto", 2415);
  }

  lemma LastK()
    ensures AllLook(LAST_K, LAST_LOOKS_K)
  {
    LookIs("Méndez", 2579);
    LookIs("Calvo", 2393);
    LookIs("Cruz", 2589);
    LookIs("Gallego", 2407);
  }

  lemma LastL()
    ensures AllLook(LAST_L, LAST_LOOKS_L)
  {
    LookIs("Vidal", 2363);
    LookIs("León", 2424);
    LookIs("Herrera", 2264);
    LookIs("Peña", 2261);
  }

  lemma LastM()
    ensures AllLook(LAST_M, LAST_LOOKS_M)
  {
    LookIs("Flores", 2473);
    LookIs("Cabrera", 2153);
    LookIs("Campos", 2452);
    LookIs("Vega", 2237);
  }

  lemma LastN()
    ensures AllLook(LAST_N, LAST_LOOKS_N)
  {
    LookIs("Fuentes", 2414);
    LookIs("Carrasco", 2432);
  }

  /** Where a look stands in the list. */
  function LastPlace(look: int): int {
    if look == 2585 then 0 else if look == 2260 then 1 else if look == 2605 then 2
    else if look == 2587 then 3 else if look == 2598 then 4 else if look == 2611 then 5
    else if look == 2554 then 6 else if look == 2562 then 7 else if look == 2472 then 8
    else if look == 2460 then 9 else if look == 2578 then 10 else if look == 2592 then 11
    else if look == 2445 then 12 else if look == 2488 then 13 else if look == 2533 then 14
    else if look == 2549 then 15 else if look == 2679 then 16 else if look == 2496 then 17
    else if look == 2364 then 18 else if look == 2479 then 19 else if look == 2325 then 20
    else if look == 2242 then 21 else if look == 2513 then 22 else if look == 2296 then 23
    else if look == 2398 then 24 else if look == 2436 then 25 else if look == 2620 then 26
    else if look == 2378 then 27 else if look == 2446 then 28 else if look == 2595 then 29
    else if look == 2466 then 30 else if look == 2194 then 31 else if look == 2443 then 32
    else if look == 2482 then 33 else if look == 2438 then 34 else if look == 2506 then 35
    else if look == 2505 then 36 else if look == 2366 then 37 else if look == 2404 then 38
    else if look == 2415 then 39 else if look == 2579 then 40 else if look == 2393 then 41
    else if look == 2589 then 42 else if look == 2407 then 43 else if look == 2363 then 44
    else if look == 2424 then 45 else if look == 2264 then 46 else if look == 2261 then 47
    else if look == 2473 then 48 else if look == 2153 then 49 else if look == 2452 then 50
    else if look == 2237 then 51 else if look == 2414 then 52 else if look == 2432 then 53
    else -1
  }

  lemma LastPlacesLow(i: nat)
    requires i < 27
    ensures LastPlace(LAST_LOOKS[i]) == i
  {
  }

  lemma LastPlacesHigh(i: nat)
    requires 27 <= i < |LAST_LOOKS|
    ensures LastPlace(LAST_LOOKS[i]) == i
  {
  }

  lemma LastLooksApart()
    ensures forall i, j :: 0 <= i < j < |LAST_LOOKS| ==> LAST_LOOKS[i] != LAST_LOOKS[j]
  {
    forall i | 0 <= i < |LAST_LOOKS|
      ensures LastPlace(LAST_LOOKS[i]) == i
    {
      if i < 27 {
        LastPlacesLow(i);
      } else {
        LastPlacesHigh(i);
      }
    }
  }

  lemma LastNamesApart()
    ensures SlugsApart(LAST_NAMES)
  {
    LastA();
    LastB();
    LastC();
    LastD();
    LastE();
    LastF();
    LastG();
    LastH();
    LastI();
    LastJ();
    LastK();
    LastL();
    LastM();
    LastN();
    var names, looks := LAST_A, LAST_LOOKS_A;
    names, looks := Together(names, looks, LAST_B, LAST_LOOKS_B);
    names, looks := Together(names, looks, LAST_C, LAST_LOOKS_C);
    names, looks := Together(names, looks, LAST_D, LAST_LOOKS_D);
    names, looks := Together(names, looks, LAST_E, LAST_LOOKS_E);
    names, looks := Together(names, looks, LAST_F, LAST_LOOKS_F);
    names, looks := Together(names, looks, LAST_G, LAST_LOOKS_G);
    names, looks := Together(names, looks, LAST_H, LAST_LOOKS_H);
    names, looks := Together(names, looks, LAST_I, LAST_LOOKS_I);
    names, looks := Together(names, looks, LAST_J, LAST_LOOKS_J);
    names, looks := Together(names, looks, LAST_K, LAST_LOOKS_K);
    names, looks := Together(names, looks, LAST_L, LAST_LOOKS_L);
    names, looks := Together(names, looks, LAST_M, LAST_LOOKS_M);
    names, looks := Together(names, looks, LAST_N, LAST_LOOKS_N);
    LastLooksApart();
    LooksTell(LAST_NAMES, LAST_LOOKS);
  }
}
