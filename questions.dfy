/**
 The question record that the GraphQL detail call returns, the guarded
 like/dislike ratio, and the (likes, ratio) key that ranks questions.

 The source computes the ratio as a float; here it is the exact rational
 likes / dislikes' where dislikes' is dislikes with 0 replaced by 1, and two
 ratios are compared by cross-multiplication.
 */
module Questions {

  /** A difficulty label as the platform spells it ("Easy", "Medium", "Hard"). */
  type Difficulty = string

  /** The difficulties selected when no --difficulty option is given. */
  const DefaultDifficulties: set<Difficulty> := {"Easy", "Medium", "Hard"}

  /** The fields of a question detail that the program reads. */
  datatype Question = Question(
    frontendId: string,
    title: string,
    likes: nat,
    dislikes: nat,
    difficulty: Difficulty)

  type Pos = n: nat | n >= 1 witness 1

  /** The non-negative rational num / den. */
  datatype Ratio = Ratio(num: nat, den: Pos)

  /** The divisor of the like ratio: dislikes, or 1 when there are none. */
  function GuardedDislikes(q: Question): Pos
  {
    if q.dislikes != 0 then q.dislikes else 1
  }

  /** likes / dislikes', the value of the like/dislikes_ratio column and the second part of the
      sort key. It is a true quotient when there are dislikes, and equals likes when there are none. */
  function LikeRatio(q: Question): (r: Ratio)
    ensures q.dislikes != 0 ==> r.num * q.dislikes == q.likes * r.den
    ensures q.dislikes == 0 ==> RatioEqual(r, Ratio(q.likes, 1))
  {
    Ratio(q.likes, GuardedDislikes(q))
  }

  /** x >= y as rationals. */
  predicate RatioAtLeast(x: Ratio, y: Ratio)
  {
    x.num * y.den >= y.num * x.den
  }

  predicate RatioEqual(x: Ratio, y: Ratio)
  {
    RatioAtLeast(x, y) && RatioAtLeast(y, x)
  }

  lemma MulMonotone(a: int, b: int, c: int)
    requires a <= b && c >= 0
    ensures a * c <= b * c
  {
  }

  /** >= on rationals is transitive; the cross-multiplied form needs the middle denominator to cancel. */
  lemma RatioAtLeastTransitive(x: Ratio, y: Ratio, z: Ratio)
    requires RatioAtLeast(x, y) && RatioAtLeast(y, z)
    ensures RatioAtLeast(x, z)
  {
    MulMonotone(y.num * x.den, x.num * y.den, z.den);
    MulMonotone(z.num * y.den, y.num * z.den, x.den);
    assert (x.num * z.den) * y.den >= (z.num * x.den) * y.den;
    if x.num * z.den < z.num * x.den {
      MulMonotone(x.num * z.den + 1, z.num * x.den, y.den);
      assert false;
    }
  }

  /** The sort key of questions_filtration: the pair (likes, ratio). */
  datatype SortKey = SortKey(likes: nat, ratio: Ratio)

  function KeyOf(q: Question): SortKey
  {
    SortKey(q.likes, LikeRatio(q))
  }

  /** Python's tuple comparison a >= b on (likes, ratio): likes first, the ratio breaks ties. */
  predicate KeyAtLeast(a: SortKey, b: SortKey)
  {
    a.likes > b.likes || (a.likes == b.likes && RatioAtLeast(a.ratio, b.ratio))
  }

  /** Neither key sorts before the other. */
  predicate Tied(a: SortKey, b: SortKey)
  {
    KeyAtLeast(a, b) && KeyAtLeast(b, a)
  }

  /** Any two keys are comparable. */
  lemma KeyAtLeastTotal(a: SortKey, b: SortKey)
    ensures KeyAtLeast(a, b) || KeyAtLeast(b, a)
  {
  }

  lemma KeyAtLeastTransitive(a: SortKey, b: SortKey, c: SortKey)
    requires KeyAtLeast(a, b) && KeyAtLeast(b, c)
    ensures KeyAtLeast(a, c)
  {
    if a.likes == b.likes == c.likes {
      RatioAtLeastTransitive(a.ratio, b.ratio, c.ratio);
    }
  }

  /** Ties form an equivalence: keys tied with a common key are tied with each other. */
  lemma TiedTransitive(a: SortKey, b: SortKey, c: SortKey)
    requires Tied(a, b) && Tied(b, c)
    ensures Tied(a, c)
  {
    KeyAtLeastTransitive(a, b, c);
    KeyAtLeastTransitive(c, b, a);
  }

  /** Two questions with the same likes tie exactly when their guarded dislikes agree,
      unless they have no likes at all (every 0 / d is 0). In particular 0 and 1 dislikes tie. */
  lemma TiedOnEqualLikes(p: Question, q: Question)
    requires p.likes == q.likes
    ensures Tied(KeyOf(p), KeyOf(q)) <==> p.likes == 0 || GuardedDislikes(p) == GuardedDislikes(q)
  {
    var l, dp, dq := p.likes, GuardedDislikes(p), GuardedDislikes(q);
    if l != 0 && dp < dq {
      MulStrict(dp, dq, l);
    } else if l != 0 && dq < dp {
      MulStrict(dq, dp, l);
    }
  }

  lemma MulStrict(a: int, b: int, c: int)
    requires a < b && c > 0
    ensures c * a < c * b
  {
  }
}
