/**
  Eva's placeholder intelligence: a deterministic template engine that
  produces the opening messages of a reflection session, a reply to each
  user message, and a Zen Quest meditation script, all personalised with the
  user's onboarding values and mood.

  Selection is driven only by the input (a 32-bit rolling hash and the
  message length for replies, the arc title's length for meditations), so
  identical inputs always give identical text.
*/
module EvaPlaceholder {
  import opened JsString

  // ==================================================================
  // Messages and contexts
  // ==================================================================

  datatype Role = Eva | User

  /** A chat message: who speaks, and what they say. */
  datatype Message = Message(role: Role, text: Str)

  /** The personalisation values; `ReflectionContext` and `MeditationParams`
      of the application have exactly these four fields. */
  datatype Context = Context(arcTitle: Str, boss: Str, finalForm: Str, mood: Str)

  /** No context value contains `$`, so that `String.replace` inserts every
      value literally (`$&`, `$$` and the other replacement patterns are not
      part of this model). */
  predicate NoDollar(ctx: Context) {
    DOLLAR !in ctx.arcTitle && DOLLAR !in ctx.boss
    && DOLLAR !in ctx.finalForm && DOLLAR !in ctx.mood
  }

  // ==================================================================
  // Templates
  // ==================================================================

  /** Reply templates, indices 0-6: 0-2 balanced, 3 and 6 deeper,
      4 and 5 short and open. */
  const REFLECTION_TEXTS: seq<string> := [
    "Thank you for sharing that. I can sense a lot behind those words.\n"
      + "Within your arc \"{arcTitle}\", moments like this are important.\n"
      + "When you think about {boss} \U{2014} what part of this feels the heaviest right now?",
    "I hear you. Feeling {mood} while carrying this makes sense.\n"
      + "Your journey toward {finalForm} isn't always a straight line.\n"
      + "What would it feel like to release just 1% of this weight?",
    "That sounds like {boss} showing up in a familiar way.\n"
      + "It's okay \U{2014} recognizing it is already progress.\n"
      + "In your arc \"{arcTitle}\", what small truth does this reveal about you?",
    "You're being honest with yourself, and that matters.\n"
      + "The version of you that is {finalForm} \U{2014} they've walked through moments like this too.\n"
      + "What would they tell you right now?",
    "When you feel {mood}, it's a signal \U{2014} not a sentence.\n"
      + "Your arc \"{arcTitle}\" holds space for all of this.\n"
      + "What's one thing underneath this feeling that wants to be seen?",
    "That's real. Thank you for not hiding it.\n"
      + "{boss} may feel heavy, but you're not carrying it alone.\n"
      + "What would feel like a tiny step forward from here?",
    "I sense something deeper here. Your words carry weight.\n"
      + "Within \"{arcTitle}\", this is part of your story \U{2014} not the end of it.\n"
      + "If {boss} could speak, what would it be asking of you?"
  ]

  /** The second opening message, which names no personalisation value.
      It is written in two pieces so that its token-freeness can be checked
      piece by piece. */
  const WEIGHING_ON_YOU: string := "What's one thing that's been " + "weighing on you lately?"

  /** Opening messages of a reflection session. */
  const INITIAL_REFLECTION_TEXTS: seq<string> := [
    "I noticed how you checked in today. {mood} is a valid place to be.",
    WEIGHING_ON_YOU
  ]

  /** Meditation scripts, indices 0-3, one line per `\n`. */
  const MEDITATION_TEXTS: seq<string> := [
    "Close your eyes.\n"
      + "Inhale slowly\U{2026} exhale gently.\n"
      + "Today's mood: {mood}. Let it rise and fall like a passing cloud.\n"
      + "Your arc, \"{arcTitle}\", continues to unfold.\n"
      + "With each breath, release one thread of {boss}.\n"
      + "You don't have to solve it \U{2014} just loosen your grip.\n"
      + "Step toward your {finalForm}.\n"
      + "You are moving with intention.\n"
      + "One percent at a time.",
    "Take a slow breath in\U{2026} and let it go.\n"
      + "Picture yourself walking a quiet path.\n"
      + "The weight of {boss} is a stone in your pocket.\n"
      + "You don't have to throw it away \U{2014} just set it down for a moment.\n"
      + "In your arc \"{arcTitle}\", you are allowed to rest.\n"
      + "Your {finalForm} self is waiting, patient and kind.\n"
      + "Breathe in possibility. Breathe out tension.\n"
      + "You are exactly where you need to be.",
    "Settle into stillness.\n"
      + "Notice where {mood} lives in your body right now.\n"
      + "Breathe into that space\U{2026} and soften.\n"
      + "Your arc, \"{arcTitle}\", holds all of this.\n"
      + "{boss} may feel heavy, but you are not defined by its weight.\n"
      + "With each exhale, imagine 1% dissolving.\n"
      + "Your {finalForm} grows clearer with every breath.\n"
      + "You are becoming.",
    "Close your eyes, warrior.\n"
      + "Your arc \U{2014} \"{arcTitle}\" \U{2014} is not over. It's unfolding.\n"
      + "{boss} is not your enemy. It's your teacher.\n"
      + "Breathe in the lesson. Breathe out the struggle.\n"
      + "Feeling {mood} is part of the journey, not a detour.\n"
      + "Your {finalForm} awaits on the other side of this moment.\n"
      + "One breath. One step. One choice.\n"
      + "You've got this."
  ]

  /** Template `i` of a table, as a JavaScript string. */
  function Template(table: seq<string>, i: nat): Str
    requires i < |table|
  {
    Units(table[i])
  }

  /** The reply to a blank message. */
  const FALLBACK_REPLY: Str := Units("I'm here when you're ready to share.")

  const ARC_TITLE_TOKEN: Str := Units("{arcTitle}")
  const BOSS_TOKEN: Str := Units("{boss}")
  const FINAL_FORM_TOKEN: Str := Units("{finalForm}")
  const MOOD_TOKEN: Str := Units("{mood}")

  const DEFAULT_ARC_TITLE: Str := Units("Your Journey")
  const DEFAULT_BOSS: Str := Units("your challenge")
  const DEFAULT_FINAL_FORM: Str := Units("your true self")
  const DEFAULT_MOOD: Str := Units("present")

  // ==================================================================
  // simpleHash
  // ==================================================================

  const TWO_31: int := 0x8000_0000
  const TWO_32: int := 0x1_0000_0000

  /** ECMAScript ToInt32: the signed 32-bit value congruent to `x` modulo
      2^32. `x << 5` and `x & x` both go through it. */
  function ToInt32(x: int): (r: int)
    ensures -TWO_31 <= r < TWO_31
    ensures (x - r) % TWO_32 == 0
    ensures -TWO_31 <= x < TWO_31 ==> r == x
  {
    (x + TWO_31) % TWO_32 - TWO_31
  }

  /** Numbers congruent modulo 2^32 have the same ToInt32. */
  lemma ToInt32Congruent(x: int, y: int)
    requires (x - y) % TWO_32 == 0
    ensures ToInt32(x) == ToInt32(y)
  {
    var rx, ry := ToInt32(x), ToInt32(y);
    var a, b, c := (x - rx) / TWO_32, (y - ry) / TWO_32, (x - y) / TWO_32;
    assert x - rx == TWO_32 * a;
    assert y - ry == TWO_32 * b;
    assert x - y == TWO_32 * c;
    assert rx - ry == TWO_32 * (c - a + b);
  }

  lemma MultipleScaled(d: int, k: int)
    requires d % TWO_32 == 0
    ensures (k * d) % TWO_32 == 0
  {
    var q := d / TWO_32;
    assert d == TWO_32 * q;
    assert k * d == TWO_32 * (k * q);
  }

  /** One round of the hash loop as written: `hash = ((hash << 5) - hash) +
      char` followed by `hash = hash & hash`. It is the 32-bit wrap of
      31·hash + char. */
  function HashStep(hash: int, u: CodeUnit): (r: int)
    ensures r == ToInt32(31 * hash + u as int)
  {
    var shifted := ToInt32(ToInt32(hash) * 32);
    var next := (shifted - hash) + u as int;
    MultipleScaled(ToInt32(hash) - hash, 32);
    ToInt32Congruent(next, 31 * hash + u as int);
    ToInt32(next)
  }

  /** The loop state after folding every code unit of `s`, from 0. */
  function HashState(s: Str): (h: int)
    ensures -TWO_31 <= h < TWO_31
  {
    if s == [] then 0 else HashStep(HashState(s[..|s| - 1]), s[|s| - 1])
  }

  /** The unwrapped polynomial hash Σ s[k]·31^(n-1-k). */
  function Polynomial(s: Str): int {
    if s == [] then 0 else 31 * Polynomial(s[..|s| - 1]) + s[|s| - 1] as int
  }

  /** The folded state is the polynomial hash wrapped once to 32 bits
      (the classic `String.hashCode`). */
  lemma {:induction false} HashStateIsPolynomial(s: Str)
    ensures HashState(s) == ToInt32(Polynomial(s))
  {
    if s != [] {
      var p, u := s[..|s| - 1], s[|s| - 1];
      HashStateIsPolynomial(p);
      StepOfWrapped(HashState(p), Polynomial(p), u as int);
    }
  }

  /** One more round on a wrapped state agrees with one more round on the
      unwrapped value, once both are wrapped. */
  lemma StepOfWrapped(h: int, x: int, u: int)
    requires h == ToInt32(x)
    ensures ToInt32(31 * h + u) == ToInt32(31 * x + u)
  {
    MultipleScaled(x - h, -31);
    ToInt32Congruent(31 * h + u, 31 * x + u);
  }

  function Abs(x: int): nat {
    if x < 0 then -x else x
  }

  /** `simpleHash(str)`: the absolute value of the 32-bit polynomial hash.
      It lies in [0, 2^31] (2^31 itself for a state of -2^31) and is 0 for
      the empty string. */
  function SimpleHash(s: Str): (r: nat)
    ensures r <= TWO_31
    ensures r == Abs(ToInt32(Polynomial(s)))
    ensures s == [] ==> r == 0
  {
    HashStateIsPolynomial(s);
    Abs(HashState(s))
  }

  // ==================================================================
  // Interpolation and mood formatting
  // ==================================================================

  /** `value || fallback` on strings: the empty string is falsy. */
  function OrDefault(value: Str, fallback: Str): (r: Str)
    ensures value != [] ==> r == value
    ensures value == [] ==> r == fallback
  {
    if value == [] then fallback else value
  }

  /** One `.replace(/\{token\}/g, value || fallback)` stage: text without
      the token is kept, and otherwise every occurrence of the token is
      replaced by the value, or by the fallback when the value is empty. */
  function ReplaceToken(s: Str, token: Str, value: Str, fallback: Str): (r: Str)
    requires |token| > 0
    ensures !Occurs(token, s) ==> r == s
    ensures r == Join(SplitOn(s, token), OrDefault(value, fallback))
  {
    ReplaceAllAbsentIf(s, token, OrDefault(value, fallback));
    ReplaceAllIsSplitJoin(s, token, OrDefault(value, fallback));
    ReplaceAll(s, token, OrDefault(value, fallback))
  }

  /** `interpolateTemplate`: four global replaces applied one after the
      other, in the order arcTitle, boss, finalForm, mood; an empty value is
      replaced by its default. Text without any of the four tokens comes back
      unchanged. */
  function Interpolate(template: Str, ctx: Context): (r: Str)
    requires NoDollar(ctx)
    ensures !Occurs(ARC_TITLE_TOKEN, template) && !Occurs(BOSS_TOKEN, template)
            && !Occurs(FINAL_FORM_TOKEN, template) && !Occurs(MOOD_TOKEN, template)
            ==> r == template
  {
    TokenFreeTextPassesStages(template, ctx);
    var a := ReplaceAll(template, ARC_TITLE_TOKEN, OrDefault(ctx.arcTitle, DEFAULT_ARC_TITLE));
    var b := ReplaceAll(a, BOSS_TOKEN, OrDefault(ctx.boss, DEFAULT_BOSS));
    var f := ReplaceAll(b, FINAL_FORM_TOKEN, OrDefault(ctx.finalForm, DEFAULT_FINAL_FORM));
    ReplaceAll(f, MOOD_TOKEN, OrDefault(ctx.mood, DEFAULT_MOOD))
  }

  /** Text in which none of the four tokens occurs passes through the four
      stages of `Interpolate` unchanged. */
  lemma TokenFreeTextPassesStages(template: Str, ctx: Context)
    ensures !Occurs(ARC_TITLE_TOKEN, template) && !Occurs(BOSS_TOKEN, template)
            && !Occurs(FINAL_FORM_TOKEN, template) && !Occurs(MOOD_TOKEN, template)
            ==> ReplaceToken(ReplaceToken(ReplaceToken(ReplaceToken(
                  template, ARC_TITLE_TOKEN, ctx.arcTitle, DEFAULT_ARC_TITLE),
                  BOSS_TOKEN, ctx.boss, DEFAULT_BOSS),
                  FINAL_FORM_TOKEN, ctx.finalForm, DEFAULT_FINAL_FORM),
                  MOOD_TOKEN, ctx.mood, DEFAULT_MOOD) == template
  {
    if !Occurs(ARC_TITLE_TOKEN, template) && !Occurs(BOSS_TOKEN, template)
       && !Occurs(FINAL_FORM_TOKEN, template) && !Occurs(MOOD_TOKEN, template) {
      ReplaceAllAbsent(template, ARC_TITLE_TOKEN, OrDefault(ctx.arcTitle, DEFAULT_ARC_TITLE));
      ReplaceAllAbsent(template, BOSS_TOKEN, OrDefault(ctx.boss, DEFAULT_BOSS));
      ReplaceAllAbsent(template, FINAL_FORM_TOKEN, OrDefault(ctx.finalForm, DEFAULT_FINAL_FORM));
      ReplaceAllAbsent(template, MOOD_TOKEN, OrDefault(ctx.mood, DEFAULT_MOOD));
    }
  }

  /** Each stage replaces every occurrence of its token: cutting the text at
      the token's occurrences and gluing the pieces back with the value (or
      its default) is the same as the stage, and gluing them back with the
      token restores the text. */
  lemma ReplaceTokenEveryOccurrence(s: Str, token: Str, value: Str, fallback: Str)
    requires |token| > 0
    ensures ReplaceToken(s, token, value, fallback) == Join(SplitOn(s, token), OrDefault(value, fallback))
    ensures Join(SplitOn(s, token), token) == s
  {
    ReplaceAllIsSplitJoin(s, token, OrDefault(value, fallback));
    JoinSplitOn(s, token);
  }

  /** Context values substituted by an earlier stage are themselves subject
      to the later stages: an arc title that reads `{mood}` comes out as the
      mood. */
  lemma InterpolateIsSequential(ctx: Context)
    requires NoDollar(ctx)
    requires ctx.arcTitle == MOOD_TOKEN
    ensures Interpolate(ARC_TITLE_TOKEN, ctx) == OrDefault(ctx.mood, DEFAULT_MOOD)
  {
    TokenShapes();
    ReplaceAllWhole(ARC_TITLE_TOKEN, MOOD_TOKEN);
    SameLengthOccurs(BOSS_TOKEN, MOOD_TOKEN);
    ReplaceAllAbsent(MOOD_TOKEN, BOSS_TOKEN, OrDefault(ctx.boss, DEFAULT_BOSS));
    ReplaceAllAbsent(MOOD_TOKEN, FINAL_FORM_TOKEN, OrDefault(ctx.finalForm, DEFAULT_FINAL_FORM));
    ReplaceAllWhole(MOOD_TOKEN, OrDefault(ctx.mood, DEFAULT_MOOD));
  }

  /** The context with every empty value replaced by its default. */
  function WithDefaults(ctx: Context): Context {
    Context(OrDefault(ctx.arcTitle, DEFAULT_ARC_TITLE), OrDefault(ctx.boss, DEFAULT_BOSS),
            OrDefault(ctx.finalForm, DEFAULT_FINAL_FORM), OrDefault(ctx.mood, DEFAULT_MOOD))
  }

  /** An empty value interpolates exactly as its default would: "Your
      Journey", "your challenge", "your true self" and "present". */
  lemma InterpolateUsesDefaults(template: Str, ctx: Context)
    requires NoDollar(ctx)
    ensures NoDollar(WithDefaults(ctx))
    ensures Interpolate(template, ctx) == Interpolate(template, WithDefaults(ctx))
  {
    DefaultsNoDollar();
  }

  /** With an empty boss, a lone `{boss}` becomes "your challenge". */
  lemma InterpolateEmptyBoss(ctx: Context)
    requires NoDollar(ctx)
    requires ctx.boss == []
    ensures Interpolate(BOSS_TOKEN, ctx) == DEFAULT_BOSS
  {
    TokenShapes();
    ReplaceAllAbsent(BOSS_TOKEN, ARC_TITLE_TOKEN, OrDefault(ctx.arcTitle, DEFAULT_ARC_TITLE));
    ReplaceAllWhole(BOSS_TOKEN, DEFAULT_BOSS);
    assert '{' !in "your challenge";
    UnitsAvoid("your challenge", '{');
    NoBraceNoTokens(DEFAULT_BOSS);
    ReplaceAllAbsent(DEFAULT_BOSS, FINAL_FORM_TOKEN, OrDefault(ctx.finalForm, DEFAULT_FINAL_FORM));
    ReplaceAllAbsent(DEFAULT_BOSS, MOOD_TOKEN, OrDefault(ctx.mood, DEFAULT_MOOD));
  }

  /** `formatMood`: the empty mood becomes "present"; any other mood keeps its
      length, gets an upper-case first letter and lower-case remaining
      letters, and is equal to the input up to (ASCII) case. */
  function FormatMood(mood: Str): (r: Str)
    ensures mood == [] ==> r == DEFAULT_MOOD
    ensures mood != [] ==> |r| == |mood| && !IsAsciiLower(r[0])
                           && (forall i :: 1 <= i < |r| ==> !IsAsciiUpper(r[i]))
                           && ToLower(r) == ToLower(mood)
    ensures r != []
    ensures DOLLAR !in mood ==> DOLLAR !in r
  {
    if mood == [] then
      DefaultMoodNoDollar();
      DEFAULT_MOOD
    else
      var r := [UpperUnit(mood[0])] + ToLower(mood[1..]);
      assert ToLower(r) == ToLower(mood) by {
        LowerOfUpper(mood[0]);
        forall i | 1 <= i < |r| ensures LowerUnit(r[i]) == LowerUnit(mood[i]) {
          assert r[i] == LowerUnit(mood[i]);
        }
      }
      assert DOLLAR !in mood ==> DOLLAR !in r by {
        if DOLLAR !in mood {
          forall i | 0 <= i < |r| ensures r[i] != DOLLAR {
            if i == 0 {
              assert r[0] == UpperUnit(mood[0]);
            } else {
              assert r[i] == LowerUnit(mood[i]);
            }
          }
        }
      }
      r
  }

  /** The context a generator interpolates with: the caller's values, with
      the mood passed through `formatMood`. */
  function FormatContext(ctx: Context): (r: Context)
    ensures r.arcTitle == ctx.arcTitle && r.boss == ctx.boss && r.finalForm == ctx.finalForm
    ensures r.mood == FormatMood(ctx.mood)
  {
    ctx.(mood := FormatMood(ctx.mood))
  }

  /** Formatting a formatted (non-empty) mood changes nothing. */
  lemma FormatMoodIdempotent(mood: Str)
    requires mood != []
    ensures FormatMood(FormatMood(mood)) == FormatMood(mood)
  {
    var r := FormatMood(mood);
    var rr := FormatMood(r);
    assert |rr| == |r|;
    forall i | 0 <= i < |r| ensures rr[i] == r[i] {
      if i == 0 {
        assert rr[0] == UpperUnit(r[0]);
      } else {
        assert rr[i] == LowerUnit(r[i]);
      }
    }
  }

  /** The empty mood is not a fixed point: it formats to "present", which
      formats again to "Present". A mood shown by default and the same word
      typed by the user therefore look different. */
  lemma EmptyMoodFormatsTwiceDifferently()
    ensures FormatMood([]) == DEFAULT_MOOD
    ensures FormatMood(FormatMood([])) == Units("Present")
    ensures FormatMood(FormatMood([])) != FormatMood([])
  {
    var r := FormatMood(DEFAULT_MOOD);
    assert r[0] == UpperUnit(DEFAULT_MOOD[0]);
    forall i | 1 <= i < |r| ensures r[i] == Units("Present")[i] {
      assert r[i] == LowerUnit(DEFAULT_MOOD[i]);
    }
    assert r[0] != DEFAULT_MOOD[0];
  }

  /** Moods that differ only in letter case format identically, so every
      generator treats them alike. */
  lemma FormatMoodIgnoresCase(m1: Str, m2: Str)
    requires ToLower(m1) == ToLower(m2)
    ensures FormatMood(m1) == FormatMood(m2)
  {
    // Case mapping keeps the length, so both moods are empty or neither is.
    assert |m1| == |ToLower(m1)| == |ToLower(m2)| == |m2|;
    if m1 != [] {
      var r1, r2 := FormatMood(m1), FormatMood(m2);
      assert LowerUnit(m1[0]) == LowerUnit(m2[0]);
      UpperOfLower(m1[0]);
      UpperOfLower(m2[0]);
      forall i | 0 <= i < |r1| ensures r1[i] == r2[i] {
        if i > 0 {
          assert LowerUnit(m1[i]) == ToLower(m1)[i];
        }
      }
    }
  }

  // ==================================================================
  // Generators
  // ==================================================================

  /** `generateInitialReflectionMessages`: two Eva messages, in template
      order; the second one is the fixed question, whatever the context. */
  function InitialReflectionMessages(ctx: Context): (ms: seq<Message>)
    requires NoDollar(ctx)
    ensures |ms| == |INITIAL_REFLECTION_TEXTS| == 2
    ensures forall i :: 0 <= i < |ms| ==>
              ms[i] == Message(Eva, Interpolate(Template(INITIAL_REFLECTION_TEXTS, i), FormatContext(ctx)))
    ensures ms[1].text == Units(WEIGHING_ON_YOU)
  {
    var fmt := FormatContext(ctx);
    SecondOpeningHasNoTokens();
    seq(|INITIAL_REFLECTION_TEXTS|,
        i requires 0 <= i < |INITIAL_REFLECTION_TEXTS| =>
          Message(Eva, Interpolate(Template(INITIAL_REFLECTION_TEXTS, i), fmt)))
  }

  /** Which reply templates serve a message of a given length: 4 and 5 below
      30 code units, 0, 1 and 2 from 30 up to 99, and 3 and 6 from 100 on. */
  predicate InLengthBucket(length: nat, index: nat) {
    || (length < 30 && (index == 4 || index == 5))
    || (30 <= length < 100 && index <= 2)
    || (100 <= length && (index == 3 || index == 6))
  }

  /** The reply template index for a message length and hash. The buckets
      partition the seven templates: every index belongs to exactly one
      length range. */
  function ReplyTemplateIndex(length: nat, hash: nat): (index: nat)
    ensures index < |REFLECTION_TEXTS|
    ensures InLengthBucket(length, index)
    ensures length < 30 ==> index == 4 + hash % 2
    ensures 30 <= length < 100 ==> index == hash % 3
    ensures 100 <= length ==> (index == 3 <==> hash % 2 == 0)
  {
    if length < 30 then 4 + hash % 2
    else if length < 100 then hash % 3
    else if hash % 2 == 0 then 3 else 6
  }

  /** `generateEvaReflectionResponse`: a blank message gets the fixed
      fallback, whatever the context; any other message gets a template from
      its length bucket, interpolated with the formatted mood. The length is
      that of the untrimmed message. */
  function Reply(userMessage: Str, ctx: Context): (m: Message)
    requires NoDollar(ctx)
    ensures m.role == Eva
    ensures IsBlank(userMessage) ==> m.text == FALLBACK_REPLY
    ensures !IsBlank(userMessage) ==>
              exists index: nat :: InLengthBucket(|userMessage|, index) && index < |REFLECTION_TEXTS|
                              && m.text == Interpolate(Template(REFLECTION_TEXTS, index), FormatContext(ctx))
    ensures !IsBlank(userMessage) ==>
              m.text == Interpolate(Template(REFLECTION_TEXTS, ReplyTemplateIndex(|userMessage|, SimpleHash(userMessage))),
                                    FormatContext(ctx))
  {
    if IsBlank(userMessage) then
      Message(Eva, FALLBACK_REPLY)
    else
      var index := ReplyTemplateIndex(|userMessage|, SimpleHash(userMessage));
      Message(Eva, Interpolate(Template(REFLECTION_TEXTS, index), FormatContext(ctx)))
  }

  /** Two short messages whose hashes have the same parity get the same
      reply: below 30 units the hash only picks between templates 4 and 5. */
  lemma ShortRepliesFollowParity(m1: Str, m2: Str, ctx: Context)
    requires NoDollar(ctx)
    requires !IsBlank(m1) && !IsBlank(m2)
    requires |m1| < 30 && |m2| < 30
    requires SimpleHash(m1) % 2 == SimpleHash(m2) % 2
    ensures Reply(m1, ctx) == Reply(m2, ctx)
  {
    assert ReplyTemplateIndex(|m1|, SimpleHash(m1)) == ReplyTemplateIndex(|m2|, SimpleHash(m2));
  }

  /** Two long messages (100 units or more) whose hashes have the same
      parity get the same reply: 3 for an even hash, 6 for an odd one. */
  lemma LongRepliesFollowParity(m1: Str, m2: Str, ctx: Context)
    requires NoDollar(ctx)
    requires !IsBlank(m1) && !IsBlank(m2)
    requires 100 <= |m1| && 100 <= |m2|
    requires SimpleHash(m1) % 2 == SimpleHash(m2) % 2
    ensures Reply(m1, ctx) == Reply(m2, ctx)
  {
    assert ReplyTemplateIndex(|m1|, SimpleHash(m1)) == ReplyTemplateIndex(|m2|, SimpleHash(m2));
  }

  /** The meditation template index: the arc title's length modulo 4, so 0
      for an empty title. */
  function MeditationTemplateIndex(arcTitle: Str): (index: nat)
    ensures index < |MEDITATION_TEXTS|
    ensures arcTitle == [] ==> index == 0
    ensures index % 4 == |arcTitle| % 4
  {
    |arcTitle| % |MEDITATION_TEXTS|
  }

  /** `generateZenQuestMeditation`: the template chosen by the arc title's
      length, interpolated with the formatted mood. */
  function ZenQuestMeditation(params: Context): (script: Str)
    requires NoDollar(params)
    ensures script == Interpolate(Template(MEDITATION_TEXTS, MeditationTemplateIndex(params.arcTitle)),
                                  FormatContext(params))
    ensures NoDollar(WithDefaults(FormatContext(params)))
    ensures script == Interpolate(Template(MEDITATION_TEXTS, MeditationTemplateIndex(params.arcTitle)),
                                  WithDefaults(FormatContext(params)))
  {
    var template := Template(MEDITATION_TEXTS, |params.arcTitle| % 4);
    InterpolateUsesDefaults(template, FormatContext(params));
    Interpolate(template, FormatContext(params))
  }

  /** A stable meditation voice: the arc title matters only through its
      length modulo 4 and the value it substitutes, so two requests that
      agree on both, and on the other values once defaults are filled in,
      get the same script. */
  lemma MeditationVoiceIsStable(p: Context, q: Context)
    requires NoDollar(p) && NoDollar(q)
    requires |p.arcTitle| % 4 == |q.arcTitle| % 4
    requires WithDefaults(FormatContext(p)) == WithDefaults(FormatContext(q))
    ensures ZenQuestMeditation(p) == ZenQuestMeditation(q)
  {
    assert MeditationTemplateIndex(p.arcTitle) == MeditationTemplateIndex(q.arcTitle);
  }

  /** Non-empty moods that differ only in letter case give the same
      script. */
  lemma MeditationIgnoresMoodCase(p: Context, q: Context)
    requires NoDollar(p) && NoDollar(q)
    requires p.arcTitle == q.arcTitle && p.boss == q.boss && p.finalForm == q.finalForm
    requires p.mood != [] && q.mood != [] && ToLower(p.mood) == ToLower(q.mood)
    ensures ZenQuestMeditation(p) == ZenQuestMeditation(q)
  {
    FormatMoodIgnoresCase(p.mood, q.mood);
    assert FormatContext(p) == FormatContext(q);
  }

  /** An empty arc title picks the first meditation and reads as "Your
      Journey". */
  lemma EmptyTitleMeditation(params: Context)
    requires NoDollar(params)
    requires params.arcTitle == []
    ensures ZenQuestMeditation(params)
            == Interpolate(Template(MEDITATION_TEXTS, 0), WithDefaults(FormatContext(params)))
    ensures WithDefaults(FormatContext(params)).arcTitle == DEFAULT_ARC_TITLE
  {
  }

  // ==================================================================
  // parseMeditationLines
  // ==================================================================

  /** `a` is `b` with some elements left out, in the same order. */
  predicate IsSubsequence(a: seq<Str>, b: seq<Str>)
    decreases |b|
  {
    if a == [] then true
    else if b == [] then false
    else if a[0] == b[0] then IsSubsequence(a[1..], b[1..])
    else IsSubsequence(a, b[1..])
  }

  /** `.map(line => line.trim())`. */
  function TrimEach(lines: seq<Str>): (r: seq<Str>)
    ensures |r| == |lines|
    ensures forall k :: 0 <= k < |lines| ==> r[k] == Trim(lines[k])
  {
    seq(|lines|, k requires 0 <= k < |lines| => Trim(lines[k]))
  }

  /** How many of `lines` are non-empty. */
  function NonEmptyCount(lines: seq<Str>): nat {
    if lines == [] then 0 else (if lines[0] != [] then 1 else 0) + NonEmptyCount(lines[1..])
  }

  /** `.filter(line => line.length > 0)`: keeps every non-empty line, in
      order, and nothing else. */
  function KeepNonEmpty(lines: seq<Str>): (r: seq<Str>)
    ensures |r| <= |lines|
    ensures |r| == NonEmptyCount(lines)
    ensures forall k :: 0 <= k < |r| ==> r[k] != [] && r[k] in lines
    ensures forall k :: 0 <= k < |lines| && lines[k] != [] ==> lines[k] in r
    ensures IsSubsequence(r, lines)
  {
    if lines == [] then []
    else
      var rest := KeepNonEmpty(lines[1..]);
      if lines[0] == [] then
        assert rest == [] || rest[0] != lines[0];
        rest
      else
        assert ([lines[0]] + rest)[1..] == rest;
        [lines[0]] + rest
  }

  /** What a parsed line looks like: non-empty, without surrounding
      whitespace, and without a line feed. */
  predicate IsParsedLine(line: Str) {
    line != [] && IsTrimmed(line) && LINE_FEED !in line
  }

  /** `parseMeditationLines`: the non-empty trimmed lines of the script, in
      order. No line is empty, none has surrounding whitespace, none holds a
      line feed, and there are at most as many lines as line feeds plus one. */
  function ParseMeditationLines(script: Str): (lines: seq<Str>)
    ensures forall k :: 0 <= k < |lines| ==> IsParsedLine(lines[k])
    ensures |lines| <= CountUnit(script, LINE_FEED) + 1
    ensures IsSubsequence(lines, TrimEach(SplitOn(script, [LINE_FEED])))
    ensures |lines| == NonEmptyCount(TrimEach(SplitOn(script, [LINE_FEED])))
    ensures forall piece :: piece in SplitOn(script, [LINE_FEED]) && Trim(piece) != [] ==> Trim(piece) in lines
  {
    var pieces := SplitOn(script, [LINE_FEED]);
    var lines := KeepNonEmpty(TrimEach(pieces));
    SplitOnUnitCount(script, LINE_FEED);
    forall k | 0 <= k < |lines|
      ensures Trim(lines[k]) == lines[k] && LINE_FEED !in lines[k]
    {
      TrimmedPieceShape(pieces, lines[k]);
    }
    lines
  }

  /** A trimmed piece of a split on line feeds is its own trim and holds no
      line feed. */
  lemma TrimmedPieceShape(pieces: seq<Str>, line: Str)
    requires forall k :: 0 <= k < |pieces| ==> !Occurs([LINE_FEED], pieces[k])
    requires line in TrimEach(pieces)
    ensures Trim(line) == line && LINE_FEED !in line
  {
    var j :| 0 <= j < |pieces| && TrimEach(pieces)[j] == line;
    TrimIdempotent(pieces[j]);
    if LINE_FEED in line {
      TrimUnitsFromSource(pieces[j], LINE_FEED);
      UnitOccurs(pieces[j], LINE_FEED);
    }
  }

  /** Filtering lines that are all non-empty keeps them all. */
  lemma {:induction false} KeepNonEmptyKeepsAll(lines: seq<Str>)
    requires forall k :: 0 <= k < |lines| ==> lines[k] != []
    ensures KeepNonEmpty(lines) == lines
    decreases |lines|
  {
    if lines != [] {
      KeepNonEmptyKeepsAll(lines[1..]);
      assert [lines[0]] + lines[1..] == lines;
    }
  }

  /** Parsing is a fixed point on its own output: joining parsed lines with
      line feeds and parsing again gives the same lines. */
  lemma ReparseMeditationLines(script: Str)
    ensures ParseMeditationLines(Join(ParseMeditationLines(script), [LINE_FEED]))
            == ParseMeditationLines(script)
  {
    ParseJoinedLines(ParseMeditationLines(script));
  }

  /** Lines that are non-empty, trimmed and free of line feeds survive a
      join with line feeds followed by a parse unchanged. */
  lemma ParseJoinedLines(lines: seq<Str>)
    requires forall k :: 0 <= k < |lines| ==> IsParsedLine(lines[k])
    ensures ParseMeditationLines(Join(lines, [LINE_FEED])) == lines
  {
    if lines == [] {
      ParseEmptyScript();
    } else {
      SplitJoinedLines(lines);
      TrimEachParsedLines(lines);
      KeepNonEmptyKeepsAll(lines);
    }
  }

  /** Trimming parsed lines changes none of them. */
  lemma TrimEachParsedLines(lines: seq<Str>)
    requires forall k :: 0 <= k < |lines| ==> IsParsedLine(lines[k])
    ensures TrimEach(lines) == lines
    ensures forall k :: 0 <= k < |lines| ==> lines[k] != []
  {
  }

  /** Splitting line-feed-free lines joined with line feeds. */
  lemma SplitJoinedLines(lines: seq<Str>)
    requires lines != []
    requires forall k :: 0 <= k < |lines| ==> IsParsedLine(lines[k])
    ensures SplitOn(Join(lines, [LINE_FEED]), [LINE_FEED]) == lines
  {
    SplitOnJoin(lines, LINE_FEED);
  }

  /** The empty script has no lines. */
  lemma ParseEmptyScript()
    ensures ParseMeditationLines([]) == []
  {
    assert SplitOn([], [LINE_FEED]) == [[]];
    assert TrimEach([[]]) == [[]];
  }

  /** A single code unit occurs as a pattern exactly when it is an element. */
  lemma {:induction false} UnitOccurs(s: Str, u: CodeUnit)
    ensures Occurs([u], s) <==> u in s
    decreases |s|
  {
    if s != [] {
      UnitOccurs(s[1..], u);
      assert s[..1] == [s[0]];
      assert s == [s[0]] + s[1..];
    }
  }

  // ==================================================================
  // Facts about the constants
  // ==================================================================

  lemma TokenShapes()
    ensures |ARC_TITLE_TOKEN| == 10 && ARC_TITLE_TOKEN[0] == LEFT_BRACE
    ensures |BOSS_TOKEN| == 6 && BOSS_TOKEN[0] == LEFT_BRACE
    ensures |FINAL_FORM_TOKEN| == 11 && FINAL_FORM_TOKEN[0] == LEFT_BRACE
    ensures |MOOD_TOKEN| == 6 && MOOD_TOKEN[0] == LEFT_BRACE
    ensures BOSS_TOKEN[1] != MOOD_TOKEN[1]
  {
  }

  /** Text without `{` contains none of the four tokens. */
  lemma NoBraceNoTokens(s: Str)
    requires LEFT_BRACE !in s
    ensures !Occurs(ARC_TITLE_TOKEN, s) && !Occurs(BOSS_TOKEN, s)
    ensures !Occurs(FINAL_FORM_TOKEN, s) && !Occurs(MOOD_TOKEN, s)
  {
    TokenShapes();
    AbsentFirstUnit(ARC_TITLE_TOKEN, s);
    AbsentFirstUnit(BOSS_TOKEN, s);
    AbsentFirstUnit(FINAL_FORM_TOKEN, s);
    AbsentFirstUnit(MOOD_TOKEN, s);
  }

  lemma SecondOpeningHasNoTokens()
    ensures INITIAL_REFLECTION_TEXTS[1] == WEIGHING_ON_YOU
    ensures !Occurs(ARC_TITLE_TOKEN, Units(WEIGHING_ON_YOU))
    ensures !Occurs(BOSS_TOKEN, Units(WEIGHING_ON_YOU))
    ensures !Occurs(FINAL_FORM_TOKEN, Units(WEIGHING_ON_YOU))
    ensures !Occurs(MOOD_TOKEN, Units(WEIGHING_ON_YOU))
  {
    assert '{' !in "What's one thing that's been ";
    assert '{' !in "weighing on you lately?";
    UnitsAvoid(WEIGHING_ON_YOU, '{');
    NoBraceNoTokens(Units(WEIGHING_ON_YOU));
  }

  lemma DefaultMoodNoDollar()
    ensures DOLLAR !in DEFAULT_MOOD
  {
    assert '$' !in "present";
    UnitsAvoid("present", '$');
  }

  lemma DefaultsNoDollar()
    ensures DOLLAR !in DEFAULT_ARC_TITLE && DOLLAR !in DEFAULT_BOSS
    ensures DOLLAR !in DEFAULT_FINAL_FORM && DOLLAR !in DEFAULT_MOOD
  {
    assert '$' !in "Your Journey";
    assert '$' !in "your challenge";
    assert '$' !in "your true self";
    UnitsAvoid("Your Journey", '$');
    UnitsAvoid("your challenge", '$');
    UnitsAvoid("your true self", '$');
    DefaultMoodNoDollar();
  }
}
