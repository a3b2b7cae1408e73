/** The controller of the AI mode: a population of games, each played by its
    own genome, stepped together; when every game is over a new generation
    is bred from the old one. Also the clamping of the two settings the
    player can change. */
module Controller {
  import opened Wrappers
  import opened Shapes
  import opened Genetics
  import opened Tetris

  const DefaultRows: nat := 20
  const DefaultCols: nat := 10
  const DefaultPopSize: nat := 50
  const DefaultMutationRate: real := 0.1
  const ElitismCount: nat := 2

  /** The population size the player asks for, kept within [10, 500]. */
  function ClampPopSize(n: int): (r: nat)
    ensures 10 <= r <= 500
    ensures 10 <= n <= 500 ==> r == n
    ensures n < 10 ==> r == 10
    ensures n > 500 ==> r == 500
  {
    if n < 10 then 10 else if n > 500 then 500 else n
  }

  /** The mutation rate the player asks for, kept within [0.01, 0.5]. */
  function ClampMutationRate(m: real): (r: real)
    ensures 0.01 <= r <= 0.5
    ensures 0.01 <= m <= 0.5 ==> r == m
    ensures m < 0.01 ==> r == 0.01
    ensures m > 0.5 ==> r == 0.5
  {
    if m < 0.01 then 0.01 else if m > 0.5 then 0.5 else m
  }

  /** The random draws one new game of a generation consumes: the ids of its
      first two pieces, the two tournament indices, a coin and a step per
      gene for mutation, and four uniform draws for a random genome. */
  datatype Draw = Draw(firstId: int, nextId: int, a: nat, b: nat, coins: seq<real>, steps: seq<real>, genes: seq<real>)

  /** Draws as Math.random gives them: piece ids in range, tournament
      indices inside a non-empty population, one draw per gene. */
  predicate DrawOk(d: Draw, n: nat) {
    && IsPieceId(d.firstId) && IsPieceId(d.nextId)
    && (n > 0 ==> d.a < n && d.b < n)
    && |d.coins| == GeneCount && |d.steps| == GeneCount && |d.genes| == GeneCount
  }

  predicate DrawsOk(draws: seq<Draw>, count: nat, n: nat) {
    count <= |draws| && forall i :: 0 <= i < count ==> DrawOk(draws[i], n)
  }

  /** The size of the next generation: the elites (only when there is a
      fittest game to copy), topped up to popSize. */
  function NextSize(n: nat, popSize: nat, elitism: nat): (size: nat)
    ensures size >= popSize
    ensures n > 0 ==> size >= elitism
    ensures size == popSize || (n > 0 && size == elitism)
  {
    if n > 0 && elitism > popSize then elitism else popSize
  }

  function Fitnesses(pop: seq<Game>): (f: seq<int>)
    reads pop
    ensures |f| == |pop| && forall i :: 0 <= i < |pop| ==> f[i] == pop[i].fitness
  {
    seq(|pop|, i reads pop requires 0 <= i < |pop| => pop[i].fitness)
  }

  function Genomes(pop: seq<Game>): (w: seq<Option<seq<real>>>)
    ensures |w| == |pop| && forall i :: 0 <= i < |pop| ==> w[i] == pop[i].genome
  {
    seq(|pop|, i requires 0 <= i < |pop| => pop[i].genome)
  }

  /** The genome a game made without a parent gets: a random one in AI
      mode, none otherwise. */
  function Unparented(aiMode: bool, draws: seq<real>): (w: Option<seq<real>>)
    ensures w.Some? <==> aiMode
    ensures w.Some? ==> |w.value| == |draws|
  {
    if aiMode then Some(InitialGenes(draws)) else None
  }

  /** The weights of game i of the next generation, bred from a population
      with weights w0 and fitness f0: the first elitism games copy the
      weights of the first game of maximum fitness; every later one copies
      the winner of a two-way tournament and mutates the copy; a game whose
      source has no genome gets an unparented one. */
  ghost function ChildWeights(w0: seq<Option<seq<real>>>, f0: seq<int>, i: nat, d: Draw, elitism: nat, rate: real, aiMode: bool): (w: Option<seq<real>>)
    requires |w0| == |f0| && DrawOk(d, |f0|)
    requires forall k :: 0 <= k < |w0| && w0[k].Some? ==> |w0[k].value| == GeneCount
    ensures w.Some? ==> |w.value| == GeneCount
  {
    if |f0| > 0 && i < elitism then
      var b := FittestIn(f0).value;
      if w0[b].Some? then w0[b] else Unparented(aiMode, d.genes)
    else
      match PickOne(f0, d.a, d.b)
      case Some(p) =>
        if w0[p].Some? then Some(Mutated(w0[p].value, rate, d.coins, d.steps)) else Unparented(aiMode, d.genes)
      case None => Unparented(aiMode, d.genes)
  }

  /** The elites of a non-empty population carry the weights of its first
      game of maximum fitness. */
  lemma ElitesCopyFittest(w0: seq<Option<seq<real>>>, f0: seq<int>, i: nat, d: Draw, elitism: nat, rate: real, aiMode: bool, b: nat)
    requires |w0| == |f0| && DrawOk(d, |f0|)
    requires forall k :: 0 <= k < |w0| && w0[k].Some? ==> |w0[k].value| == GeneCount
    requires i < elitism && IsFirstMax(f0, b) && w0[b].Some?
    ensures ChildWeights(w0, f0, i, d, elitism, rate, aiMode) == w0[b]
  {
    FirstMaxUnique(f0, b, FittestIn(f0).value);
  }

  /** Past the elites, a game's weights are its tournament winner's, each
      gene either kept or moved by less than 0.2; the winner is at least as
      fit as the other entrant. */
  lemma OffspringNearParent(w0: seq<Option<seq<real>>>, f0: seq<int>, i: nat, d: Draw, elitism: nat, rate: real, aiMode: bool)
    requires |w0| == |f0| && DrawOk(d, |f0|) && |f0| > 0 && elitism <= i
    requires forall k :: 0 <= k < |w0| && w0[k].Some? ==> |w0[k].value| == GeneCount
    requires forall k :: 0 <= k < GeneCount ==> 0.0 <= d.steps[k] < 1.0
    ensures var p := PickOne(f0, d.a, d.b).value;
      var c := ChildWeights(w0, f0, i, d, elitism, rate, aiMode);
      && f0[p] >= f0[d.a] && f0[p] >= f0[d.b]
      && (w0[p].Some? ==>
            && c.Some? && |c.value| == GeneCount
            && forall k :: 0 <= k < GeneCount ==> -0.2 <= c.value[k] - w0[p].value[k] < 0.2)
  {
    var p := PickOne(f0, d.a, d.b).value;
    if w0[p].Some? {
      MutatedIsBounded(w0[p].value, rate, d.coins, d.steps);
    }
  }

  /** The best fitness ever seen once a generation with the given
      fitnesses is over: it never falls, it is at least every fitness of
      the generation, and it is either the old record or one of them. */
  function RaisedBest(bestFit: int, fitness: seq<int>): (b: int)
    ensures b >= bestFit
    ensures forall i :: 0 <= i < |fitness| ==> b >= fitness[i]
    ensures b == bestFit || exists i :: 0 <= i < |fitness| && b == fitness[i]
  {
    var best := FittestIn(fitness);
    if best.Some? && fitness[best.value] > bestFit then fitness[best.value] else bestFit
  }

  /** Positions a and b of the population hold different games. */
  predicate Apart(s: seq<Game>, a: nat, b: nat)
    requires a < |s| && b < |s|
  {
    s[a] != s[b]
  }

  /** No game appears twice in the population. */
  predicate Distinct(s: seq<Game>) {
    forall a, b :: 0 <= a < b < |s| ==> Apart(s, a, b)
  }

  /** The game at position i differs from every other one. */
  lemma DistinctAt(s: seq<Game>, i: nat)
    requires Distinct(s) && i < |s|
    ensures forall j :: 0 <= j < |s| && j != i ==> s[j] != s[i]
  {
    forall j | 0 <= j < |s| && j != i ensures s[j] != s[i] {
      if j < i { assert Apart(s, j, i); } else { assert Apart(s, i, j); }
    }
  }

  /** A game not yet in a population without repeats can join it. */
  lemma DistinctAppend(s: seq<Game>, g: Game)
    requires Distinct(s) && g !in s
    ensures Distinct(s + [g])
  {
    var t := s + [g];
    forall a, b | 0 <= a < b < |t| ensures Apart(t, a, b) {
      if b < |s| { assert Apart(s, a, b); }
    }
  }

  /** Every game of the population is a valid game on a rows-by-cols board. */
  ghost predicate GamesOk(pop: seq<Game>, rows: nat, cols: nat)
    reads pop
  {
    forall i :: 0 <= i < |pop| ==> pop[i].rows == rows && pop[i].cols == cols && pop[i].Valid()
  }

  /** A game fresh from the constructor, of the given size, started with
      the pieces of draw d and playing with weights w. */
  ghost predicate IsNewGame(g: Game, rows: nat, cols: nat, d: Draw, w: Option<seq<real>>)
    reads g
  {
    && g.rows == rows && g.cols == cols
    && IsPieceId(d.firstId) && IsPieceId(d.nextId)
    && g.Snapshot() == Initial(rows, cols, d.firstId, d.nextId)
    && g.genome == w
  }

  /** A new game with weights of the right length is a valid game. */
  lemma NewGameIsValid(g: Game, rows: nat, cols: nat, d: Draw, w: Option<seq<real>>)
    requires 2 <= rows && 4 <= cols
    requires IsNewGame(g, rows, cols, d, w) && (w.Some? ==> |w.value| == GeneCount)
    ensures g.Valid()
  {
    InitialInv(rows, cols, d.firstId, d.nextId);
  }

  /** The games of a new generation are valid games of the session's size. */
  lemma BredGamesValid(newPop: seq<Game>, rows: nat, cols: nat, draws: seq<Draw>, w0: seq<Option<seq<real>>>, fitness: seq<int>,
                       elitism: nat, rate: real, aiMode: bool)
    requires 2 <= rows && 4 <= cols && |w0| == |fitness| && DrawsOk(draws, |newPop|, |fitness|)
    requires forall k :: 0 <= k < |w0| && w0[k].Some? ==> |w0[k].value| == GeneCount
    requires forall i :: 0 <= i < |newPop| ==>
      IsNewGame(newPop[i], rows, cols, draws[i], ChildWeights(w0, fitness, i, draws[i], elitism, rate, aiMode))
    ensures GamesOk(newPop, rows, cols)
  {
    forall i | 0 <= i < |newPop| ensures newPop[i].Valid() {
      NewGameIsValid(newPop[i], rows, cols, draws[i], ChildWeights(w0, fitness, i, draws[i], elitism, rate, aiMode));
    }
  }

  /** The games createPopulation makes: count new games without a parent,
      each on its own draw. */
  method NewGames(rows: nat, cols: nat, aiMode: bool, draws: seq<Draw>, count: nat) returns (games: seq<Game>)
    requires 2 <= rows && 4 <= cols && DrawsOk(draws, count, 0)
    ensures |games| == count
    ensures Distinct(games)
    ensures forall i :: 0 <= i < |games| ==>
      fresh(games[i]) && IsNewGame(games[i], rows, cols, draws[i], Unparented(aiMode, draws[i].genes))
  {
    games := [];
    while |games| < count
      invariant |games| <= count
      invariant Distinct(games)
      invariant forall i :: 0 <= i < |games| ==>
        fresh(games[i]) && IsNewGame(games[i], rows, cols, draws[i], Unparented(aiMode, draws[i].genes))
      decreases count - |games|
    {
      var g := NewUnparented(rows, cols, aiMode, draws[|games|]);
      DistinctAppend(games, g);
      games := games + [g];
    }
  }

  /** A game of the first generation, started on draw d: random weights in
      AI mode, none otherwise. */
  method NewUnparented(rows: nat, cols: nat, aiMode: bool, d: Draw) returns (g: Game)
    requires 2 <= rows && 4 <= cols && DrawOk(d, 0)
    ensures fresh(g) && IsNewGame(g, rows, cols, d, Unparented(aiMode, d.genes))
  {
    g := new Game(rows, cols, d.firstId, d.nextId, None, aiMode, d.genes);
  }

  /** Game i of the next generation when it is an elite: a new game on
      draw d, its genome a copy of the fittest game's. */
  method NewElite(pop: seq<Game>, fitness: seq<int>, best: nat, ghost w0: seq<Option<seq<real>>>,
                  rows: nat, cols: nat, aiMode: bool, elitism: nat, rate: real, d: Draw, i: nat)
    returns (g: Game)
    requires 2 <= rows && 4 <= cols
    requires |fitness| == |pop| && FittestIn(fitness) == Some(best)
    requires w0 == Genomes(pop) && forall k :: 0 <= k < |w0| && w0[k].Some? ==> |w0[k].value| == GeneCount
    requires DrawOk(d, |pop|) && i < elitism
    ensures fresh(g) && IsNewGame(g, rows, cols, d, ChildWeights(w0, fitness, i, d, elitism, rate, aiMode))
  {
    g := new Game(rows, cols, d.firstId, d.nextId, pop[best].genome, aiMode, d.genes);
  }

  /** Game i of the next generation past the elites: a new game on draw d,
      its genome a mutated copy of the tournament winner's. */
  method NewChild(pop: seq<Game>, fitness: seq<int>, ghost w0: seq<Option<seq<real>>>,
                  rows: nat, cols: nat, aiMode: bool, elitism: nat, rate: real, d: Draw, i: nat)
    returns (g: Game)
    requires 2 <= rows && 4 <= cols
    requires |fitness| == |pop|
    requires w0 == Genomes(pop) && forall k :: 0 <= k < |w0| && w0[k].Some? ==> |w0[k].value| == GeneCount
    requires DrawOk(d, |pop|) && (|pop| > 0 ==> elitism <= i)
    ensures fresh(g) && IsNewGame(g, rows, cols, d, ChildWeights(w0, fitness, i, d, elitism, rate, aiMode))
  {
    var parent := PickOne(fitness, d.a, d.b);
    if parent.Some? && pop[parent.value].genome.Some? {
      var child := new Genome.Clone(pop[parent.value].genome.value);
      child.Mutate(rate, d.coins, d.steps);
      g := new Game(rows, cols, d.firstId, d.nextId, Some(child.genes), aiMode, d.genes);
    } else {
      g := new Game(rows, cols, d.firstId, d.nextId, None, aiMode, d.genes);
    }
  }

  /** The elites evolve makes: elitism copies of the fittest game, none
      when there is no game. */
  method AddElites(pop: seq<Game>, fitness: seq<int>, best: Option<nat>, ghost w0: seq<Option<seq<real>>>,
                   rows: nat, cols: nat, aiMode: bool, elitism: nat, popSize: nat, rate: real, draws: seq<Draw>)
    returns (newPop: seq<Game>)
    requires 2 <= rows && 4 <= cols
    requires |fitness| == |pop| && best == FittestIn(fitness)
    requires w0 == Genomes(pop) && forall i :: 0 <= i < |w0| && w0[i].Some? ==> |w0[i].value| == GeneCount
    requires DrawsOk(draws, NextSize(|pop|, popSize, elitism), |pop|)
    ensures |newPop| == if |pop| > 0 then elitism else 0
    ensures Distinct(newPop)
    ensures forall i :: 0 <= i < |newPop| ==>
      && fresh(newPop[i])
      && IsNewGame(newPop[i], rows, cols, draws[i], ChildWeights(w0, fitness, i, draws[i], elitism, rate, aiMode))
  {
    newPop := [];
    var e := 0;
    while e < elitism
      invariant e <= elitism
      invariant |newPop| == if best.Some? then e else 0
      invariant Distinct(newPop)
      invariant forall i :: 0 <= i < |newPop| ==>
        && fresh(newPop[i])
        && IsNewGame(newPop[i], rows, cols, draws[i], ChildWeights(w0, fitness, i, draws[i], elitism, rate, aiMode))
    {
      if best.Some? {
        var g := NewElite(pop, fitness, best.value, w0, rows, cols, aiMode, elitism, rate, draws[|newPop|], |newPop|);
        DistinctAppend(newPop, g);
        newPop := newPop + [g];
      }
      e := e + 1;
    }
  }

  /** The rest of the generation evolve makes: tournament children, each a
      mutated copy of its winner, until there are popSize games. */
  method AddChildren(pop: seq<Game>, fitness: seq<int>, ghost w0: seq<Option<seq<real>>>, start: seq<Game>,
                     rows: nat, cols: nat, aiMode: bool, elitism: nat, popSize: nat, rate: real, draws: seq<Draw>)
    returns (newPop: seq<Game>)
    requires 2 <= rows && 4 <= cols
    requires |fitness| == |pop|
    requires w0 == Genomes(pop) && forall i :: 0 <= i < |w0| && w0[i].Some? ==> |w0[i].value| == GeneCount
    requires DrawsOk(draws, NextSize(|pop|, popSize, elitism), |pop|)
    requires |start| == if |pop| > 0 then elitism else 0
    requires Distinct(start)
    requires forall i :: 0 <= i < |start| ==>
      IsNewGame(start[i], rows, cols, draws[i], ChildWeights(w0, fitness, i, draws[i], elitism, rate, aiMode))
    ensures |newPop| == NextSize(|pop|, popSize, elitism) && newPop[..|start|] == start
    ensures Distinct(newPop)
    ensures forall i :: |start| <= i < |newPop| ==> fresh(newPop[i])
    ensures forall i :: 0 <= i < |newPop| ==>
      IsNewGame(newPop[i], rows, cols, draws[i], ChildWeights(w0, fitness, i, draws[i], elitism, rate, aiMode))
  {
    newPop := start;
    while |newPop| < popSize
      invariant |start| <= |newPop| <= NextSize(|pop|, popSize, elitism) && newPop[..|start|] == start
      invariant Distinct(newPop)
      invariant forall i :: |start| <= i < |newPop| ==> fresh(newPop[i])
      invariant forall i :: 0 <= i < |newPop| ==>
        IsNewGame(newPop[i], rows, cols, draws[i], ChildWeights(w0, fitness, i, draws[i], elitism, rate, aiMode))
      decreases popSize - |newPop|
    {
      var g := NewChild(pop, fitness, w0, rows, cols, aiMode, elitism, rate, draws[|newPop|], |newPop|);
      DistinctAppend(newPop, g);
      newPop := newPop + [g];
    }
  }

  /** Every genome of a population of valid games has one weight per feature. */
  lemma GenomesOfValid(pop: seq<Game>, rows: nat, cols: nat)
    requires GamesOk(pop, rows, cols)
    ensures forall i :: 0 <= i < |pop| && Genomes(pop)[i].Some? ==> |Genomes(pop)[i].value| == GeneCount
  {
  }

  /** The next generation: the elites, then the tournament children; and
      the best fitness seen once the current generation is over. */
  method NextGeneration(pop: seq<Game>, bestFit: int, ghost f0: seq<int>, ghost w0: seq<Option<seq<real>>>,
                        rows: nat, cols: nat, aiMode: bool, elitism: nat, popSize: nat, rate: real, draws: seq<Draw>)
    returns (newPop: seq<Game>, newBest: int)
    requires 2 <= rows && 4 <= cols
    requires GamesOk(pop, rows, cols) && f0 == Fitnesses(pop) && w0 == Genomes(pop)
    requires DrawsOk(draws, NextSize(|pop|, popSize, elitism), |pop|)
    ensures newBest == RaisedBest(bestFit, f0)
    ensures |newPop| == NextSize(|pop|, popSize, elitism)
    ensures Distinct(newPop)
    ensures GamesOk(newPop, rows, cols)
    ensures forall i :: 0 <= i < |newPop| ==>
      && fresh(newPop[i])
      && IsNewGame(newPop[i], rows, cols, draws[i], ChildWeights(w0, f0, i, draws[i], elitism, rate, aiMode))
  {
    GenomesOfValid(pop, rows, cols);
    var fitness := Fitnesses(pop);
    var best := Fittest(fitness);
    newBest := bestFit;
    if best.Some? && fitness[best.value] > newBest {
      newBest := fitness[best.value];
    }
    var elites := AddElites(pop, fitness, best, w0, rows, cols, aiMode, elitism, popSize, rate, draws);
    newPop := AddChildren(pop, fitness, w0, elites, rows, cols, aiMode, elitism, popSize, rate, draws);
    BredGamesValid(newPop, rows, cols, draws, w0, fitness, elitism, rate, aiMode);
  }

  /** The loop of runStep over the population: every live game makes one
      AI move; the result says whether every game was already over. */
  method MoveAll(games: seq<Game>, ids: seq<int>, rows: nat, cols: nat) returns (allDead: bool)
    requires GamesOk(games, rows, cols) && Distinct(games)
    requires |ids| == |games| && forall i :: 0 <= i < |ids| ==> IsPieceId(ids[i])
    modifies set g | g in games
    ensures GamesOk(games, rows, cols)
    ensures allDead <==> forall i :: 0 <= i < |games| ==> old(games[i].dead)
    ensures forall i :: 0 <= i < |games| ==>
      games[i].Snapshot() == AfterAiMove(old(games[i].Snapshot()), rows, cols, games[i].genome, ids[i])
  {
    allDead := true;
    var i := 0;
    while i < |games|
      invariant i <= |games|
      invariant GamesOk(games, rows, cols)
      invariant forall j :: 0 <= j < i ==>
        games[j].Snapshot() == AfterAiMove(old(games[j].Snapshot()), rows, cols, games[j].genome, ids[j])
      invariant forall j :: i <= j < |games| ==> games[j].Snapshot() == old(games[j].Snapshot())
      invariant allDead <==> forall j :: 0 <= j < i ==> old(games[j].dead)
    {
      var g := games[i];
      DistinctAt(games, i);
      assert g.dead == old(g.dead);
      if !g.dead {
        g.AiMove(ids[i]);
        allDead := false;
      }
      i := i + 1;
    }
  }

  /** The controller: the population and its generation counter, the best
      fitness seen, and the settings. */
  class Session {
    const rows: nat
    const cols: nat
    const aiMode: bool
    const elitismCount: nat
    var popSize: nat
    var mutationRate: real
    var pop: seq<Game>
    var gen: nat
    var bestFit: int

    ghost predicate Valid()
      reads this, pop
    {
      && 2 <= rows && 4 <= cols
      && 10 <= popSize <= 500 && 0.01 <= mutationRate <= 0.5
      && GamesOk(pop, rows, cols)
      && Distinct(pop)
    }

    /** The controller at start-up: no population, generation 0, best fitness 0. */
    constructor (aiMode: bool)
      ensures Valid()
      ensures rows == DefaultRows && cols == DefaultCols && this.aiMode == aiMode
      ensures elitismCount == ElitismCount && popSize == DefaultPopSize && mutationRate == DefaultMutationRate
      ensures pop == [] && gen == 0 && bestFit == 0
    {
      rows, cols := DefaultRows, DefaultCols;
      this.aiMode := aiMode;
      elitismCount := ElitismCount;
      popSize, mutationRate := DefaultPopSize, DefaultMutationRate;
      pop, gen, bestFit := [], 0, 0;
    }

    /** A first generation of popSize new games. */
    method CreatePopulation(draws: seq<Draw>)
      requires Valid() && DrawsOk(draws, popSize, 0)
      modifies this
      ensures Valid() && gen == 1 && |pop| == popSize
      ensures popSize == old(popSize) && mutationRate == old(mutationRate) && bestFit == old(bestFit)
      ensures forall i :: 0 <= i < |pop| ==>
        fresh(pop[i]) && IsNewGame(pop[i], rows, cols, draws[i], Unparented(aiMode, draws[i].genes))
    {
      pop := NewGames(rows, cols, aiMode, draws, popSize);
      gen := 1;
      forall i | 0 <= i < |pop| ensures pop[i].Valid() {
        NewGameIsValid(pop[i], rows, cols, draws[i], Unparented(aiMode, draws[i].genes));
      }
    }

    /** Breeds the next generation once every game is over. */
    method Evolve(draws: seq<Draw>, ghost f0: seq<int>, ghost w0: seq<Option<seq<real>>>)
      requires Valid() && DrawsOk(draws, NextSize(|pop|, popSize, elitismCount), |pop|)
      requires f0 == Fitnesses(pop) && w0 == Genomes(pop)
      modifies this
      ensures Valid()
      ensures gen == old(gen) + 1
      ensures popSize == old(popSize) && mutationRate == old(mutationRate)
      ensures bestFit == RaisedBest(old(bestFit), f0)
      ensures |pop| == NextSize(|f0|, popSize, elitismCount)
      ensures forall i :: 0 <= i < |pop| ==>
        && fresh(pop[i])
        && IsNewGame(pop[i], rows, cols, draws[i], ChildWeights(w0, f0, i, draws[i], elitismCount, mutationRate, aiMode))
    {
      var newPop, newBest := NextGeneration(pop, bestFit, f0, w0, rows, cols, aiMode, elitismCount, popSize, mutationRate, draws);
      Install(newPop, newBest);
    }

    /** Makes newPop the next generation, with best fitness newBest. */
    method Install(newPop: seq<Game>, newBest: int)
      requires 2 <= rows && 4 <= cols && 10 <= popSize <= 500 && 0.01 <= mutationRate <= 0.5
      requires GamesOk(newPop, rows, cols) && Distinct(newPop)
      modifies this
      ensures Valid() && pop == newPop && gen == old(gen) + 1 && bestFit == newBest
      ensures popSize == old(popSize) && mutationRate == old(mutationRate)
    {
      pop, gen, bestFit := newPop, gen + 1, newBest;
    }

    /** Every live game makes one AI move; the result says whether all
        games were already over. */
    method StepAll(ids: seq<int>) returns (allDead: bool)
      requires Valid()
      requires |ids| == |pop| && forall i :: 0 <= i < |ids| ==> IsPieceId(ids[i])
      modifies pop
      ensures Valid()
      ensures allDead <==> forall i :: 0 <= i < |pop| ==> old(pop[i].dead)
      ensures forall i :: 0 <= i < |pop| ==>
        pop[i].Snapshot() == AfterAiMove(old(pop[i].Snapshot()), rows, cols, pop[i].genome, ids[i])
    {
      allDead := MoveAll(pop, ids, rows, cols);
    }

    /** One step of the AI mode: every live game makes one AI move; if no
        game was live, the next generation is bred instead. */
    method RunStep(ids: seq<int>, draws: seq<Draw>) returns (allDead: bool)
      requires Valid()
      requires |ids| == |pop| && forall i :: 0 <= i < |ids| ==> IsPieceId(ids[i])
      requires DrawsOk(draws, NextSize(|pop|, popSize, elitismCount), |pop|)
      modifies this, pop
      ensures Valid()
      ensures allDead <==> forall i :: 0 <= i < old(|pop|) ==> old(pop[i].dead)
      ensures popSize == old(popSize) && mutationRate == old(mutationRate)
      ensures !allDead ==> pop == old(pop) && gen == old(gen) && bestFit == old(bestFit)
      ensures !allDead ==> forall i :: 0 <= i < |pop| ==>
        pop[i].Snapshot() == AfterAiMove(old(pop[i].Snapshot()), rows, cols, pop[i].genome, ids[i])
      ensures allDead ==> gen == old(gen) + 1 && |pop| == NextSize(old(|pop|), popSize, elitismCount)
      ensures allDead ==> forall i :: 0 <= i < |pop| ==>
        && fresh(pop[i])
        && IsNewGame(pop[i], rows, cols, draws[i], ChildWeights(old(Genomes(pop)), old(Fitnesses(pop)), i, draws[i], elitismCount, mutationRate, aiMode))
      ensures allDead ==> bestFit == RaisedBest(old(bestFit), old(Fitnesses(pop)))
    {
      ghost var f0 := Fitnesses(pop);
      allDead := StepAll(ids);
      if allDead {
        assert Fitnesses(pop) == f0;
        Evolve(draws, f0, Genomes(pop));
      }
    }

    /** The player's new settings: both clamped; the generation counter and
        best fitness restart, and in AI mode a new population is made. */
    method SaveAiSettings(popInput: int, mutInput: real, draws: seq<Draw>)
      requires Valid()
      requires aiMode ==> DrawsOk(draws, ClampPopSize(popInput), 0)
      modifies this
      ensures Valid()
      ensures popSize == ClampPopSize(popInput) && mutationRate == ClampMutationRate(mutInput)
      ensures bestFit == 0
      ensures aiMode ==> gen == 1 && |pop| == popSize
      ensures aiMode ==> forall i :: 0 <= i < |pop| ==>
        fresh(pop[i]) && IsNewGame(pop[i], rows, cols, draws[i], Unparented(aiMode, draws[i].genes))
      ensures !aiMode ==> gen == 0 && pop == old(pop)
    {
      popSize := ClampPopSize(popInput);
      mutationRate := ClampMutationRate(mutInput);
      gen := 0;
      bestFit := 0;
      if aiMode {
        CreatePopulation(draws);
      }
    }
  }
}
