/**
  The ABX trial engine of AudioTestApp: the score counters, the current round
  assignment, the p-value on display, and the enabled state of the buttons
  that drive a session (open a file, convert it, then play and guess).
  Randomness enters as the drawn pair `draw`; what the file dialog, the
  decoder and the encoder did enters as a parameter.
 */
module AudioTest {
  import opened Labels
  import opened Significance

  /** How a press of "Choose File" ended. The dialog was cancelled or the
      file could not be opened (the OSError caught as "Cancelled."); the file
      could not be decoded (an exception that ends the worker thread); the
      file was decoded but copying it into the files directory raised an
      OSError, again reported as "Cancelled."; or the file was opened. */
  datatype OpenResult = Cancelled | Undecodable | CopyFailed | Opened
  {
    /** The decode succeeded, so the score reset and the button change ran. */
    predicate Decoded()
    {
      CopyFailed? || Opened?
    }
  }

  class AudioTestApp {
    var tries: nat
    var correct: nat
    /** The p-value on display; open_file also stores it as self.p. */
    var p: real
    var randFile: (int, int)
    /** "Convert File" is enabled; it is from the first successful open on,
        which is also when the opened file is at hand. */
    var convertEnabled: bool
    /** The four play buttons and the two guess buttons. */
    var controlsEnabled: bool

    /** The score never counts more right answers than tries, the round
        assignment is a drawn pair, and the p-value on display is the exact
        tail for the current score (1 before the first guess). */
    ghost predicate Valid()
      reads this
    {
      correct <= tries && IsDraw(randFile) && p == PValue(correct, tries)
    }

    /** Start-up: an empty score, a first round already drawn, only "Convert
        File" disabled. */
    constructor (draw: (int, int))
      requires IsDraw(draw)
      ensures Valid()
      ensures tries == 0 && correct == 0 && p == 1.0 && randFile == draw
      ensures !convertEnabled && controlsEnabled
    {
      tries, correct := 0, 0;
      randFile := draw;
      p := 1.0;
      convertEnabled := false;
      controlsEnabled := true;
      PValueNoneCorrect(0);
    }

    /** Draws a new round assignment. */
    method GenerateRandomFile(draw: (int, int))
      requires IsDraw(draw)
      modifies this`randFile
      ensures randFile == draw
    {
      randFile := draw;
    }

    /** Sets the enabled state of the play and guess buttons together. */
    method ButtonsChangeState(enabled: bool)
      modifies this`controlsEnabled
      ensures controlsEnabled == enabled
    {
      controlsEnabled := enabled;
    }

    /** Opening a file, followed by post_open_file when it succeeded. Once the
        file is decoded the score goes back to 0/0 with p = 1 and the play and
        guess buttons are disabled, whatever the score was; a cancelled or
        undecodable file changes nothing. The round assignment is kept. */
    method OpenFile(result: OpenResult)
      requires Valid()
      modifies this
      ensures Valid()
      ensures randFile == old(randFile)
      ensures result.Decoded() ==> tries == 0 && correct == 0 && p == 1.0 && !controlsEnabled
      ensures !result.Decoded() ==>
                tries == old(tries) && correct == old(correct) && p == old(p) &&
                controlsEnabled == old(controlsEnabled)
      ensures convertEnabled == (old(convertEnabled) || result == Opened)
    {
      if result.Decoded() {
        p := 1.0;
        tries := 0;
        correct := 0;
        ButtonsChangeState(false);
        PValueNoneCorrect(0);
        if result == Opened {
          convertEnabled := true;
        }
      }
    }

    /** The conversion run started by "Convert File". The play and guess
        buttons are enabled as soon as the lossy copy has been exported and
        read back (`encoded`), and again when the run finishes; a failed
        export leaves them as they were. The score and the round are kept. */
    method ConvertFile(encoded: bool)
      requires Valid() && convertEnabled
      modifies this`controlsEnabled
      ensures Valid()
      ensures controlsEnabled == (old(controlsEnabled) || encoded)
    {
      if encoded {
        ButtonsChangeState(true);
        PostConvertFile();
      }
    }

    /** Run on the interface thread once a conversion has finished; only a
        run started by "Convert File" schedules it. */
    method PostConvertFile()
      requires Valid() && convertEnabled
      modifies this`controlsEnabled
      ensures Valid()
      ensures controlsEnabled
    {
      ButtonsChangeState(true);
    }

    /** The file a play button plays in the current round, as play_sound picks
        it from the slot bits. Only the play buttons call it, so only while
        they are enabled. Nothing changes, so asking again within a round
        gives the same file. */
    method PlaySound(l: Label) returns (v: Variant)
      requires Valid() && controlsEnabled
      ensures v == Resolve(l, randFile)
    {
      match l
      case A => v := if randFile.0 == 0 then Original else Converted;
      case B => v := if randFile.0 == 1 then Original else Converted;
      case X => v := if randFile.1 == 0 then Original else Converted;
      case Y => v := if randFile.1 == 1 then Original else Converted;
    }

    /** A press of a guess button: one more try, one more right answer exactly
        when A and the label the guess pairs it with play the same file in
        this round, the exact p-value for the new score, then a new round.
        Only the guess buttons call it, so only while they are enabled. */
    method EvaluateGuess(guess: Guess, draw: (int, int))
      requires Valid() && controlsEnabled && IsDraw(draw)
      modifies this
      ensures Valid()
      ensures tries == old(tries) + 1
      ensures correct == old(correct) + (if Matches(guess, old(randFile)) then 1 else 0)
      ensures p == PValue(correct, tries)
      ensures randFile == draw
      ensures convertEnabled == old(convertEnabled) && controlsEnabled == old(controlsEnabled)
    {
      tries := tries + 1;
      match guess {
        case AIsX =>
          if randFile.0 == randFile.1 {
            correct := correct + 1;
          }
        case AIsY =>
          if randFile.0 != randFile.1 {
            correct := correct + 1;
          }
      }
      p := PValue(correct, tries);
      GenerateRandomFile(draw);
    }
  }

  /** A session as the buttons drive it: open a file, convert it, then guess.
      Right after the open the guess buttons are disabled; they come back only
      when the lossy copy was made, and only then can a guess be scored, on a
      score that the open set back to 0/0. */
  method OpenConvertGuess(app: AudioTestApp, encoded: bool, guess: Guess, draw: (int, int))
    returns (guessed: bool)
    requires app.Valid() && IsDraw(draw)
    modifies app
    ensures app.Valid()
    ensures guessed == encoded
    ensures app.tries == (if encoded then 1 else 0)
    ensures app.correct == (if encoded && Matches(guess, old(app.randFile)) then 1 else 0)
  {
    app.OpenFile(Opened);
    assert !app.controlsEnabled;
    app.ConvertFile(encoded);
    guessed := app.controlsEnabled;
    if guessed {
      app.EvaluateGuess(guess, draw);
    }
  }
}
