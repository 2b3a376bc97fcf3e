# Egg doneness classifier: a Dafny model of its classification core

The program photographs an egg and says how well it is cooked ("Ovo Mole",
"Ovo ao Ponto", "Ovo Passado") by comparing the mean colour of the photo,
in hue/saturation/value space, with one reference colour per class learned
from a fixed set of training images. This project models that core of
`main.py`:

- the training file names: a class prefix, a dash, the 1-based image index
  zero-padded to two digits, and the extension (`ovo-mole-01.png` ... `ovo-mole-06.png`),
  joined onto the training directory;
- `EggTrainer.train`: for each configured class, in configured order, decode
  every expected image, keep the descriptors that could be produced, store
  their component-wise mean as the class centroid and the number used as
  its image count; a class with no usable image gets no centroid and a count
  of 0; training fails when no class got a centroid;
- `EggClassifier.classify`: no result when the query image yields no
  descriptor; otherwise a scan of the centroid table with a running minimum
  that only a strictly smaller distance replaces, so the earliest of equally
  near centroids wins.

Modules: `Wrappers` (Option, Result), `Hsv` (the descriptor, sum, mean,
squared distance), `FileNames` (two-digit padding, file names, path join),
`CentroidTable` (the insertion-ordered `color_patterns` dictionary as a
sequence of entries, with Python's lookup and assignment), `Trainer` (the
configuration, the decoder as a parameter, the specification of training
as a fold over the classes, the class `EggTrainer`) and `Classifier` (the
first-nearest specification and the class `EggClassifier`).

The image decoder `ImageProcessor.get_average_hsv` is a parameter of type
`string -> Option<Descriptor>`: any decoder at all, so every property holds
whatever the images contain. Descriptors are triples of exact reals.
Distances are compared squared: the source compares Euclidean norms, and
`Hsv.NormOrder` shows that on non-negative reals a strict comparison of two
norms comes out the same as the comparison of their squares, so every
comparison of the scan has the same outcome.

`Train` is specified from whatever state the trainer is in, since Python
lets it be called again; the lemmas about absent classes, counts and failure
are stated for a fresh trainer, which is how `main()` uses it (main.py:484-485).
Called a second time, the code keeps the old centroid of a class whose
images have since disappeared; the model does the same.

`classify` returns only the label (main.py:131), not the distance; the
model does the same.

## Model

| member | source | states |
|---|---|---|
| `Hsv.MeanOfUniform` | main.py:83-85 | the centroid of descriptors that are all equal to `c` is `c` |
| `Hsv.MeanWithin` | main.py:83-85 | the centroid lies inside every box (per-channel lower and upper bound) that holds all of the collected descriptors |
| `Hsv.SumOfUniform` | main.py:85 | the component-wise sum of `n` copies of `c` is `n` times `c` |
| `Hsv.SumMonotone` | main.py:85 | summing two equally long lists that are ordered entry by entry gives sums ordered in every channel |
| `Hsv.SquaredDistance` | main.py:126 | the squared Euclidean distance is never negative |
| `Hsv.NormOrder` | main.py:126-127 | for non-negative norms, `x < y` exactly when `x*x < y*y`, so each strict comparison of squared distances has the same outcome as the comparison of the norms |
| `FileNames.DecimalRoundTrip` | main.py:76 | reading back the decimal numeral of `n` gives `n` |
| `FileNames.LeadingZero` | main.py:76 | a leading zero does not change the value of a numeral |
| `FileNames.ZeroPad2RoundTrip` | main.py:76 | reading back the `02d` form of an index gives the index |
| `FileNames.ZeroPad2TwoDigits` | main.py:76 | indices below 100 are written as exactly two digits, tens then units |
| `FileNames.TrainingFileNameRoundTrip` | main.py:75-76 | a training file name is the prefix, a dash, two digits that read back as the index, and the extension |
| `FileNames.TrainingFileNamesDistinct` | main.py:75-76 | two training file names with the same prefix and extension are equal only for the same index, so different indices give different files |
| `FileNames.Join` | main.py:77 | the joined path ends with the file name; an absolute file name replaces the directory; otherwise the directory stays in front, and exactly one '/' is put between the two unless the directory is empty or already ends with '/', in which case the path is the directory followed by the name |
| `CentroidTable.Lookup` | main.py:85 | a class name has a centroid exactly when it is a key of the table, and the centroid found is stored under that name |
| `CentroidTable.Labels` | main.py:124 | the keys in table order, one per entry |
| `CentroidTable.PutLabels` | main.py:85 | assigning to an existing key keeps the key order; a new key goes last |
| `CentroidTable.PutLookup` | main.py:85 | after the assignment the key holds the new centroid and every other key holds its old one |
| `CentroidTable.PutDistinct` | main.py:85 | assignment keeps the keys distinct |
| `Trainer.CollectClassImages` | main.py:74-81 | the loop over indices 1 to the image count collects exactly the descriptors the decoder produced for the class's expected paths, in index order |
| `Trainer.CollectedMembers` | main.py:75-81 | a descriptor is collected exactly when one of the expected images 1 to `n` produced it, so a missing image never contributes |
| `Trainer.CollectedEmptyIff` | main.py:75-83 | nothing is collected exactly when none of the expected images 1 to `n` produced a descriptor |
| `Trainer.CollectedAllSome` | main.py:75-81 | when every image decodes, all descriptors are collected, image `i` at position `i - 1` |
| `Trainer.ClassImagesEmptyIff` | main.py:74-83 | a class gets no images exactly when every one of its expected paths yields no descriptor |
| `Trainer.EggTrainer.constructor` | main.py:62-65 | a new trainer has an empty table and no counts |
| `Trainer.EggTrainer.Train` | main.py:67-98 | the new table and counts are the fold of the per-class step over the configured classes, and the result is the failure naming the directory exactly when the table is empty, the table otherwise |
| `Trainer.TrainedNamesConfigured` | main.py:73-85 | every trained class name is one of the classes processed so far |
| `Trainer.TrainedNamesBefore` | main.py:73-85 | with distinct class names, a class processed later is not yet among the trained ones |
| `Trainer.TrainedAbsent` | main.py:73-85 | from a fresh trainer, a class not among the first `n` has no centroid after them |
| `Trainer.TrainedDistinct` | main.py:83-85 | from a fresh trainer, the trained table never holds two entries for one class, as a dictionary does |
| `Trainer.TrainedLabels` | main.py:73-89 | from a fresh trainer, the table's keys are the classes with at least one image, in configured order |
| `Trainer.TrainedCentroid` | main.py:83-89 | from a fresh trainer, a class with images has the mean of its images as centroid and a class without is absent, whatever the other classes got |
| `Trainer.TrainedCount` | main.py:86-89 | from a fresh trainer, each configured class's count is the number of images collected for it, 0 when none |
| `Trainer.TrainedCountsKeys` | main.py:86-89 | from a fresh trainer, exactly the configured classes get a count |
| `Trainer.TrainedEmptyIff` | main.py:83-91 | from a fresh trainer, the table stays empty exactly when no processed class got an image |
| `Trainer.TrainFailsIff` | main.py:91-95 | from a fresh trainer, training fails exactly when no expected image of any configured class yields a descriptor |
| `Trainer.EggConfigFileNames` | main.py:18-24 | the built-in class names are distinct, indices 1 to 6 are written "01" to "06", and the first image of "Ovo Mole" is `ovo-mole-01.png` |
| `Classifier.NearestIndex` | main.py:121-129 | the chosen entry is at least as near as every entry and strictly nearer than every entry before it |
| `Classifier.PredictionIsFirstNearest` | main.py:117-131 | there is a result exactly when the query has a descriptor and some entry is first nearest to it, and the result is that entry's class |
| `Classifier.ExactMatchWins` | main.py:124-129 | a query equal to one centroid and at positive distance from every other gets that centroid's class |
| `Classifier.EggClassifier.constructor` | main.py:104-105 | the classifier holds the table it is given |
| `Classifier.EggClassifier.Classify` | main.py:107-131 | the scan with a running minimum starting at infinity returns no result for a missing descriptor or an empty table, and otherwise the class of the first nearest centroid; the table is not modified |

## Left out

- The image decoder itself (main.py:43-56): the file-existence check, OpenCV decoding, the BGR to HSV conversion and the per-pixel mean are library and filesystem calls; the decoder is a parameter, and the model holds for every decoder.
- Console diagnostics (main.py:44, 72, 87, 97): output only.
- Floating point: descriptors, means and distances are exact reals, so float64 rounding, numpy's summation order, NaN and infinite channel values are not modelled; the square root of `np.linalg.norm` is replaced by squared distances (see `Hsv.NormOrder`).
- Hue wrap-around: hue is a linear scalar, as in the source.
- `Trainer.EggTrainer.Train`: the error carries the training directory as given, not `os.path.abspath` of it, which depends on the working directory.
- `FileNames.Join`: only POSIX `os.path.join` of two parts is modelled, not the Windows separator rules.
- Aliasing: the classifier is built on the trainer's own dictionary object (main.py:488) and `train` returns that object; the model passes the table by value, which is observably the same because nothing changes the table after training.
- `ResultLogger` (main.py:134-182), the Tkinter interface (main.py:187-472) and `main()` with its error dialogs (main.py:477-509): file I/O, timestamps and user interface.
